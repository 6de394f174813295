/**
 * The paper container: a page frame whose width comes from a size, a body
 * whose padding comes from the same size, and helpers that give the
 * negative margins and padding matching that size. The class strings are
 * the source's own; `classNames` output is kept as the list of classes it
 * joins.
 */
module PaperContainer {
  import opened Wrappers

  datatype Size = Tiny | Small | Medium | Large | XLarge | XXLarge

  /** The size's name, as written in the type. */
  function SizeName(size: Size): string {
    match size
    case Tiny => "tiny"
    case Small => "small"
    case Medium => "medium"
    case Large => "large"
    case XLarge => "xlarge"
    case XXLarge => "xxlarge"
  }

  /**
   * `sizes`: the maximum-width class of each size. The three large sizes
   * are first capped at 90% of a small screen; the others are not.
   */
  function MaxWidthClass(size: Size): (c: string)
    ensures (|c| >= 14 && c[..14] == "sm:max-w-[90%]") <==> size in {Large, XLarge, XXLarge}
    ensures size in {Tiny, Small, Medium} ==> |c| > 6 && c[..6] == "max-w-"
  {
    match size
    case Tiny => "max-w-xl"
    case Small => "max-w-2xl"
    case Medium => "max-w-4xl"
    case Large => "sm:max-w-[90%] lg:max-w-5xl "
    case XLarge => "sm:max-w-[90%] lg:max-w-6xl "
    case XXLarge => "sm:max-w-[90%] lg:max-w-7xl"
  }

  /** `bodyPaddings`: the body padding of each size, horizontal first, always non-empty. */
  function BodyPaddingClass(size: Size): (c: string)
    ensures |c| > 3 && c[..3] == "px-"
  {
    match size
    case Tiny => "px-8 py-6 sm:px-10 sm:py-8"
    case Small => "px-10 py-8"
    case Medium => "px-12 py-10"
    case Large => "px-4 sm:px-12 py-10"
    case XLarge => "px-12 py-10"
    case XXLarge => "px-16 py-12"
  }

  const FluidWidthClass: string := "w-[90%]"

  /** `classNames`: the classes whose condition holds, empty strings dropped. */
  function ClassNames(entries: seq<(string, bool)>): (r: seq<string>)
    ensures forall c :: c in r <==> c != "" && exists i :: 0 <= i < |entries| && entries[i] == (c, true)
  {
    if |entries| == 0 then []
    else
      var rest := ClassNames(entries[1..]);
      assert forall i :: 1 <= i < |entries| ==> entries[i] == entries[1..][i - 1];
      if entries[0].1 && entries[0].0 != "" then [entries[0].0] + rest else rest
  }

  /** The size `Root` puts in context: the given one, or medium. */
  function RootSize(size: Option<Size>): (s: Size)
    ensures size.None? ==> s == Medium
    ensures size.Some? ==> s == size.value
  {
    match size
    case None => Medium
    case Some(s) => s
  }

  /** `Root`: the fluid width class when fluid, otherwise the size's maximum width. */
  function RootClasses(size: Option<Size>, className: string, fluid: bool): (r: seq<string>)
    ensures "mx-auto relative" in r && "sm:my-10" in r
    ensures className != "" ==> className in r
    ensures className != FluidWidthClass ==> (FluidWidthClass in r <==> fluid)
    ensures className != MaxWidthClass(RootSize(size)) ==> (MaxWidthClass(RootSize(size)) in r <==> !fluid)
    ensures forall c :: c in r ==> c in {className, "mx-auto relative", "sm:my-10", FluidWidthClass, MaxWidthClass(RootSize(size))}
  {
    var entries := [(className, true), ("mx-auto relative", true), ("sm:my-10", true),
                    (FluidWidthClass, fluid), (MaxWidthClass(RootSize(size)), !fluid)];
    var r := ClassNames(entries);
    assert entries[1] == ("mx-auto relative", true) && entries[2] == ("sm:my-10", true);
    assert fluid ==> entries[3] == (FluidWidthClass, true);
    assert !fluid ==> entries[4] == (MaxWidthClass(RootSize(size)), true);
    r
  }

  /** `Body`'s padding: none when `noPadding`, otherwise the size's. */
  function BodyPadding(size: Size, noPadding: bool): (p: string)
    ensures noPadding ==> p == ""
    ensures !noPadding ==> p == BodyPaddingClass(size) && p != ""
  {
    if noPadding then "" else BodyPaddingClass(size)
  }

  /** `Body`'s inner classes: its padding, "pt-4" when a banner is shown, and the caller's class. */
  function BodyInnerClasses(size: Size, noPadding: bool, hasBanner: bool, className: string): (r: seq<string>)
    ensures className != "pt-4" ==> ("pt-4" in r <==> hasBanner)
    ensures className != BodyPaddingClass(size) ==> (BodyPaddingClass(size) in r <==> !noPadding)
    ensures className != "" ==> className in r
    ensures forall c :: c in r ==> c in {BodyPaddingClass(size), "pt-4", className}
  {
    var entries := [(BodyPadding(size, noPadding), true), ("pt-4", hasBanner), (className, true)];
    var r := ClassNames(entries);
    assert hasBanner ==> entries[1] == ("pt-4", true);
    assert !noPadding ==> entries[0] == (BodyPaddingClass(size), true);
    assert entries[2] == (className, true);
    r
  }

  /** A body inside a root given no size gets the medium padding. */
  lemma DefaultBodyPadding()
    ensures BodyPadding(RootSize(None), false) == "px-12 py-10"
  {
  }

  datatype SizeHelpers = SizeHelpers(size: Size, negHor: string, negTop: string, horPadding: string)

  /** The first switch of `usePaperSizeHelpers`: a negative horizontal margin for every size but tiny. */
  function NegativeHorizontalMargin(size: Size): (m: Option<string>)
    ensures m.None? <==> size == Tiny
    ensures m.Some? ==> |m.value| > 4 && m.value[..4] == "-mx-"
  {
    match size
    case Small => Some("-mx-10")
    case Medium => Some("-mx-12")
    case Large => Some("-mx-4 sm:-mx-12")
    case XLarge => Some("-mx-12")
    case XXLarge => Some("-mx-16")
    case Tiny => None
  }

  /** The second switch: a negative top margin for every size but tiny. */
  function NegativeTopMargin(size: Size): (m: Option<string>)
    ensures m.None? <==> size == Tiny
    ensures m.Some? ==> |m.value| > 4 && m.value[..4] == "-mt-"
  {
    match size
    case Small => Some("-mt-8")
    case Medium => Some("-mt-10")
    case Large => Some("-mt-10")
    case XLarge => Some("-mt-10")
    case XXLarge => Some("-mt-12")
    case Tiny => None
  }

  /** The third switch: a horizontal padding for every size but tiny. */
  function HorizontalPadding(size: Size): (p: Option<string>)
    ensures p.None? <==> size == Tiny
    ensures p.Some? ==> |p.value| > 3 && p.value[..3] == "px-"
  {
    match size
    case Small => Some("px-10")
    case Medium => Some("px-12")
    case Large => Some("px-12")
    case XLarge => Some("px-12")
    case XXLarge => Some("px-16")
    case Tiny => None
  }

  /**
   * `usePaperSizeHelpers`: the three lookups in turn; the first that has no
   * case for the size throws "Unknown size <size>". Tiny, a declared size,
   * is the one size every lookup rejects.
   */
  function UsePaperSizeHelpers(size: Size): (r: Result<SizeHelpers, string>)
    ensures r.Err? <==> size == Tiny
    ensures r.Err? ==> r.error == "Unknown size tiny"
    ensures r.Ok? ==> r.value.size == size
    ensures r.Ok? ==> && Some(r.value.negHor) == NegativeHorizontalMargin(size)
                      && Some(r.value.negTop) == NegativeTopMargin(size)
                      && Some(r.value.horPadding) == HorizontalPadding(size)
  {
    match NegativeHorizontalMargin(size)
    case None => Err("Unknown size " + SizeName(size))
    case Some(negHor) =>
      match NegativeTopMargin(size)
      case None => Err("Unknown size " + SizeName(size))
      case Some(negTop) =>
        match HorizontalPadding(size)
        case None => Err("Unknown size " + SizeName(size))
        case Some(horPadding) => Ok(SizeHelpers(size, negHor, negTop, horPadding))
  }

  /**
   * The helpers let a section bleed to the body's edge: on wide screens the
   * negative horizontal margin undoes exactly the horizontal padding
   * (`-mx-N` against `px-N`), and that padding is the one the body uses.
   */
  lemma MarginUndoesPadding(size: Size)
    requires size != Tiny
    ensures var m := NegativeHorizontalMargin(size).value;
            var p := HorizontalPadding(size).value;
            |m| >= |p| + 1 && m[|m| - |p| - 1..] == "-m" + p[1..]
    ensures var p := HorizontalPadding(size).value;
            var b := BodyPaddingClass(size);
            size != Large ==> |b| > |p| && b[..|p| + 1] == p + " "
  {
  }

  /** Sample rows of the helper tables. */
  lemma HelperExamples()
    ensures UsePaperSizeHelpers(XXLarge) == Ok(SizeHelpers(XXLarge, "-mx-16", "-mt-12", "px-16"))
    ensures UsePaperSizeHelpers(Large) == Ok(SizeHelpers(Large, "-mx-4 sm:-mx-12", "-mt-10", "px-12"))
  {
  }
}
