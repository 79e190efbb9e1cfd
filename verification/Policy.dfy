// The platform's policy: which aspect ratios are accepted, and how titles are normalised.
module Policy {
  import opened Common

  const MAX_ASPECT_WIDTH: int := 3
  const MAX_ASPECT_HEIGHT: int := 1
  const MIN_ASPECT_WIDTH: int := 1
  const MIN_ASPECT_HEIGHT: int := 3

  const DEFAULT_TITLE: string := "LIVE on Caffeine!"
  const SEVENTEEN_PLUS_TAG: string := "[17+] "
  const MAX_TITLE_LENGTH: nat := 255

  datatype AspectResult = Success | AspectTooWide | AspectTooNarrow

  predicate IsRatioLess(width1: int, height1: int, width2: int, height2: int) {
    width1 * height2 < width2 * height1
  }

  predicate IsRatioGreater(width1: int, height1: int, width2: int, height2: int) {
    width1 * height2 > width2 * height1
  }

  // For a real picture: accepted exactly between 1:3 and 3:1, both included.
  function CheckAspectRatio(width: int32, height: int32): (r: AspectResult)
    ensures r.Success? <==> width <= 3 * height && height <= 3 * width
    ensures r.AspectTooWide? <==> width > 3 * height
  {
    if IsRatioGreater(width, height, MAX_ASPECT_WIDTH, MAX_ASPECT_HEIGHT) then AspectTooWide
    else if IsRatioLess(width, height, MIN_ASPECT_WIDTH, MIN_ASPECT_HEIGHT) then AspectTooNarrow
    else Success
  }

  // std::isspace in the "C" locale, on the bytes of the title.
  predicate IsSpace(c: char) {
    c == ' ' || '\t' <= c <= '\r'
  }

  predicate AllSpaces(s: string) {
    forall i :: 0 <= i < |s| ==> IsSpace(s[i])
  }

  lemma SpacesAre(c: char)
    ensures IsSpace(c) <==> c in [' ', '\t', '\n', 11 as char, 12 as char, '\r']
  {
  }

  // Empty, or without a space at either end.
  predicate Tight(s: string) {
    s != [] ==> !IsSpace(s[0]) && !IsSpace(s[|s| - 1])
  }

  predicate SplitsAs(s: string, left: string, core: string, right: string) {
    s == left + core + right && AllSpaces(left) && AllSpaces(right) && Tight(core)
  }

  // What is left without the spaces at the front; at the back.
  function TrimLeft(s: string): (r: string)
    ensures |r| <= |s|
  {
    if s != [] && IsSpace(s[0]) then TrimLeft(s[1..]) else s
  }

  function TrimRight(s: string): (r: string)
    ensures |r| <= |s|
  {
    if s != [] && IsSpace(s[|s| - 1]) then TrimRight(s[..|s| - 1]) else s
  }

  function Trimmed(s: string): string {
    TrimRight(TrimLeft(s))
  }

  // The in-place trims. The string edited by reference is the result.
  method Ltrim(s: string) returns (r: string)
    ensures r == TrimLeft(s)
  {
    var i := 0;
    while i < |s| && IsSpace(s[i])
      invariant i <= |s| && TrimLeft(s[i..]) == TrimLeft(s)
    {
      assert s[i..][1..] == s[i + 1..];
      i := i + 1;
    }
    r := s[i..];
  }

  method Rtrim(s: string) returns (r: string)
    ensures r == TrimRight(s)
  {
    var i := |s|;
    assert s[..i] == s;
    while i > 0 && IsSpace(s[i - 1])
      invariant 0 <= i <= |s| && TrimRight(s[..i]) == TrimRight(s)
    {
      assert s[..i][..i - 1] == s[..i - 1];
      i := i - 1;
    }
    r := s[..i];
  }

  method Trim(s: string) returns (r: string)
    ensures r == Trimmed(s)
  {
    r := Ltrim(s);
    r := Rtrim(r);
  }

  lemma TrimLeftSplits(s: string) returns (left: string)
    ensures s == left + TrimLeft(s) && AllSpaces(left)
    ensures TrimLeft(s) != [] ==> !IsSpace(TrimLeft(s)[0])
  {
    if s != [] && IsSpace(s[0]) {
      left := TrimLeftSplits(s[1..]);
      left := [s[0]] + left;
    } else {
      left := [];
    }
  }

  lemma TrimRightSplits(s: string) returns (right: string)
    ensures s == TrimRight(s) + right && AllSpaces(right)
    ensures TrimRight(s) != [] ==> !IsSpace(TrimRight(s)[|TrimRight(s)| - 1])
  {
    if s != [] && IsSpace(s[|s| - 1]) {
      right := TrimRightSplits(s[..|s| - 1]);
      right := right + [s[|s| - 1]];
    } else {
      right := [];
    }
  }

  lemma TrimSplits(s: string) returns (left: string, right: string)
    ensures SplitsAs(s, left, Trimmed(s), right)
  {
    left := TrimLeftSplits(s);
    right := TrimRightSplits(TrimLeft(s));
    assert s == left + (Trimmed(s) + right);
  }

  // trim returns the core of a split into spaces, core and spaces, and there is no other core.
  lemma TrimIsTheCore(s: string, left: string, core: string, right: string)
    requires SplitsAs(s, left, core, right)
    ensures core == Trimmed(s)
  {
    var left', right' := TrimSplits(s);
    SameCore(s, left, core, right, left', Trimmed(s), right');
  }

  lemma SameCore(s: string, l: string, c: string, r: string, l': string, c': string, r': string)
    requires SplitsAs(s, l, c, r) && SplitsAs(s, l', c', r')
    ensures c == c'
  {
    CoreBounds(s, l, c, r);
    CoreBounds(s, l', c', r');
    if c != [] || c' != [] {
      assert |l| == |l'| && |r| == |r'|;
    }
  }

  // The core begins and ends at the first and last character that is not a space.
  lemma CoreBounds(s: string, l: string, c: string, r: string)
    requires SplitsAs(s, l, c, r)
    ensures c == s[|l|..|s| - |r|]
    ensures forall i :: 0 <= i < |l| || |s| - |r| <= i < |s| ==> IsSpace(s[i])
    ensures c != [] ==> !IsSpace(s[|l|]) && !IsSpace(s[|s| - |r| - 1])
  {
    assert forall i :: 0 <= i < |l| ==> s[i] == l[i];
    assert forall i :: |s| - |r| <= i < |s| ==> s[i] == r[i - (|s| - |r|)];
  }

  // Title and rating as shown on the platform.
  function Annotated(title: string, seventeenPlus: bool): string {
    var core := Trimmed(title);
    var t := (if seventeenPlus then SEVENTEEN_PLUS_TAG else "") + (if core == [] then DEFAULT_TITLE else core);
    if |t| > MAX_TITLE_LENGTH then t[..MAX_TITLE_LENGTH] else t
  }

  method AnnotateTitle(title: string, seventeenPlus: bool) returns (r: string)
    ensures r == Annotated(title, seventeenPlus)
    ensures 0 < |r| <= MAX_TITLE_LENGTH
    ensures seventeenPlus ==> SEVENTEEN_PLUS_TAG < r
  {
    r := Trim(title);
    if |r| == 0 {
      r := DEFAULT_TITLE;
    }
    if seventeenPlus {
      r := SEVENTEEN_PLUS_TAG + r;
    }
    if |r| > MAX_TITLE_LENGTH {
      r := r[..MAX_TITLE_LENGTH];
    }
  }

  // However the title splits into spaces, core and spaces: the result is the first 255 characters
  // of the tag, if rated, and the core, or the default title in place of an empty one.
  lemma AnnotatedIs(title: string, seventeenPlus: bool, left: string, core: string, right: string)
    requires SplitsAs(title, left, core, right)
    ensures var full := (if seventeenPlus then "[17+] " else "") + (if core == [] then "LIVE on Caffeine!" else core);
            Annotated(title, seventeenPlus) <= full && |Annotated(title, seventeenPlus)| == Min(|full|, 255)
  {
    TrimIsTheCore(title, left, core, right);
  }

  lemma TightIsTrimmed(s: string)
    requires Tight(s)
    ensures Trimmed(s) == s
  {
  }

  // An annotated title starts without a space, and ends without one unless it was cut short
  // right behind a space.
  lemma AnnotatedEnds(title: string)
    ensures var core, r := Trimmed(title), Annotated(title, false);
            && r != [] && !IsSpace(r[0])
            && (Tight(r) <==> |core| <= MAX_TITLE_LENGTH || !IsSpace(core[MAX_TITLE_LENGTH - 1]))
  {
    var left, right := TrimSplits(title);
    assert Tight(DEFAULT_TITLE);
  }

  // Without a rating, annotating again changes nothing exactly when the trimmed title fits or
  // is not cut right behind a space, and never changes anything the third time.
  lemma AnnotateSettles(title: string)
    ensures var once := Annotated(title, false);
            var twice := Annotated(once, false);
            && (twice == once <==>
                 |Trimmed(title)| <= MAX_TITLE_LENGTH || !IsSpace(Trimmed(title)[MAX_TITLE_LENGTH - 1]))
            && Annotated(twice, false) == twice
  {
    var once := Annotated(title, false);
    var left, right := TrimSplits(once);
    AnnotatedEnds(title);
    if Tight(once) {
      TightIsTrimmed(once);
    } else {
      assert Trimmed(once) != once;
    }
    TightIsTrimmed(Trimmed(once));
    CoreBounds(once, left, Trimmed(once), right);
    assert Trimmed(once) != [];
  }
}
