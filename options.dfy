/** The feature flags of DirectOverlaySetOption (DirectOverlay.cpp:30-32,
    326-335). Options can only be switched on: no call clears a flag. */
module Options {

  /** The option bits of DirectOverlay.h (not part of this model) taken
      as three distinct single bits. */
  const RequireForeground: bv32 := 1
  const DrawFps: bv32 := 2
  const VSync: bv32 := 4

  /** o_Foreground, o_DrawFPS and o_VSync. */
  datatype Flags = Flags(foreground: bool, drawFps: bool, vsync: bool)

  /** The values of the three globals at program start. */
  const Defaults: Flags := Flags(true, false, false)

  predicate Has(option: bv32, bit: bv32) {
    option & bit != 0
  }

  /** Pointwise order on flags: every flag of `f` is also set in `g`. */
  predicate Below(f: Flags, g: Flags) {
    (f.foreground ==> g.foreground) && (f.drawFps ==> g.drawFps) && (f.vsync ==> g.vsync)
  }

  /** DirectOverlaySetOption: each flag whose bit is present becomes true,
      every other flag keeps its value. */
  function SetOption(f: Flags, option: bv32): (r: Flags)
    ensures Below(f, r)
    ensures Has(option, RequireForeground) ==> r.foreground
    ensures Has(option, DrawFps) ==> r.drawFps
    ensures Has(option, VSync) ==> r.vsync
    ensures !Has(option, RequireForeground) ==> r.foreground == f.foreground
    ensures !Has(option, DrawFps) ==> r.drawFps == f.drawFps
    ensures !Has(option, VSync) ==> r.vsync == f.vsync
  {
    var f1 := if option & RequireForeground != 0 then f.(foreground := true) else f;
    var f2 := if option & DrawFps != 0 then f1.(drawFps := true) else f1;
    if option & VSync != 0 then f2.(vsync := true) else f2
  }

  /** A sequence of DirectOverlaySetOption calls, oldest first. */
  function SetOptions(f: Flags, options: seq<bv32>): Flags
    decreases |options|
  {
    if options == [] then f else SetOptions(SetOption(f, options[0]), options[1..])
  }

  /** Some call of the sequence carries `bit`. */
  predicate AnyHas(options: seq<bv32>, bit: bv32) {
    exists i :: 0 <= i < |options| && Has(options[i], bit)
  }

  /** After any sequence of calls a flag is set exactly when it was set
      before or some call carried its bit. */
  lemma {:induction false} SetOptionsExact(f: Flags, options: seq<bv32>)
    ensures Below(f, SetOptions(f, options))
    ensures SetOptions(f, options).foreground <==> f.foreground || AnyHas(options, RequireForeground)
    ensures SetOptions(f, options).drawFps <==> f.drawFps || AnyHas(options, DrawFps)
    ensures SetOptions(f, options).vsync <==> f.vsync || AnyHas(options, VSync)
    decreases |options|
  {
    if options != [] {
      var g := SetOption(f, options[0]);
      var rest := options[1..];
      SetOptionsExact(g, rest);
      forall bit: bv32 ensures AnyHas(options, bit) <==> Has(options[0], bit) || AnyHas(rest, bit) {
        if AnyHas(options, bit) {
          var i :| 0 <= i < |options| && Has(options[i], bit);
          if i > 0 { assert Has(rest[i - 1], bit); }
        }
        if AnyHas(rest, bit) {
          var j :| 0 <= j < |rest| && Has(rest[j], bit);
          assert Has(options[j + 1], bit);
        }
      }
    }
  }

  /** Since o_Foreground starts out true and no call clears it, the
      foreground gate can never be switched off. */
  lemma {:induction false} ForegroundGateNeverOff(options: seq<bv32>)
    ensures SetOptions(Defaults, options).foreground
  {
    SetOptionsExact(Defaults, options);
  }
}
