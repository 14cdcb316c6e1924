/** The marker stage of evalBody in rules.go.  A one-pass scanner for script markers is proved to find
    exactly what the regular expression {{script:\s*(.*?)}} finds, leftmost first, with its greedy
    and its lazy star, and the replacement is proved to touch nothing but the markers. */
module Markers {
  import opened Prelude
  import opened GoStrings

  const OPEN: string := "{{script:"

  /** \s of the regular expression. */
  predicate Space(c: char) { c == '\t' || c == '\n' || c == '\U{0C}' || c == '\r' || c == ' ' }

  predicate At(s: string, i: nat, t: string) { i + |t| <= |s| && s[i..i + |t|] == t }

  /** "}}" stands at position i. */
  predicate EndAt(s: string, i: nat) { i + 2 <= |s| && s[i] == '}' && s[i + 1] == '}' }

  // ---- what the expression means ----

  /** One way to match at position i: w white characters by the first star, g of one line by the second. */
  ghost predicate Match(s: string, i: nat, w: nat, g: nat) {
    && i + 9 + w + g + 2 <= |s|
    && s[i..i + 9] == "{{script:"
    && (forall k :: i + 9 <= k < i + 9 + w ==> s[k] in {'\t', '\n', '\U{0C}', '\r', ' '})
    && (forall k :: i + 9 + w <= k < i + 9 + w + g ==> s[k] != '\n')
    && s[i + 9 + w + g] == '}' && s[i + 9 + w + g + 1] == '}'
  }

  /** The match that a backtracking matcher finds first: the longest first star that leads to a match at
      all, and then the shortest second star. */
  ghost predicate Preferred(s: string, i: nat, w: nat, g: nat) {
    && Match(s, i, w, g)
    && (forall w': nat, g': nat :: Match(s, i, w', g') ==> w' < w || (w' == w && g <= g'))
  }

  ghost predicate Matchable(s: string, i: nat) {
    exists w: nat, g: nat :: Match(s, i, w, g)
  }

  // ---- the scanner ----

  function SpaceRun(s: string, p: nat): (n: nat)
    requires p <= |s|
    ensures p + n <= |s| && forall k :: p <= k < p + n ==> Space(s[k])
    ensures p + n < |s| ==> !Space(s[p + n])
    decreases |s| - p
  {
    if p < |s| && Space(s[p]) then 1 + SpaceRun(s, p + 1) else 0
  }

  /** The first "}}" from p on that no newline precedes. */
  function FindEnd(s: string, p: nat): (e: Option<nat>)
    requires p <= |s|
    ensures e.Some? ==> p <= e.value && EndAt(s, e.value)
    ensures e.Some? ==> forall k :: p <= k < e.value ==> s[k] != '\n' && !EndAt(s, k)
    ensures e.None? ==> forall k :: p <= k <= |s| && EndAt(s, k) ==> exists j :: p <= j < k && s[j] == '\n'
    decreases |s| - p
  {
    if EndAt(s, p) then Some(p)
    else if p == |s| || s[p] == '\n' then None
    else FindEnd(s, p + 1)
  }

  /** A marker: where it starts, where its group starts and ends. */
  datatype Mark = Mark(start: nat, from: nat, to: nat)

  function EndOf(m: Mark): nat { m.to + 2 }

  function ScanAt(s: string, i: nat): (m: Option<Mark>)
    requires i <= |s|
    ensures m.Some? ==> m.value.start == i && i + |OPEN| <= m.value.from <= m.value.to && EndOf(m.value) <= |s|
  {
    if !At(s, i, OPEN) then None
    else
      var from := i + |OPEN| + SpaceRun(s, i + |OPEN|);
      var e := FindEnd(s, from);
      if e.None? then None else Some(Mark(i, from, e.value))
  }

  /** The leftmost marker from i on. */
  function FirstMark(s: string, i: nat): (m: Option<Mark>)
    requires i <= |s|
    ensures m.Some? ==>
      i <= m.value.start && m.value.start + |OPEN| <= m.value.from <= m.value.to && EndOf(m.value) <= |s|
    decreases |s| - i
  {
    if ScanAt(s, i).Some? then ScanAt(s, i) else if i == |s| then None else FirstMark(s, i + 1)
  }

  // ---- the scanner is the expression ----

  lemma {:induction false} SpaceRunIsLongest(s: string, p: nat, w: nat)
    requires p + w <= |s| && forall k :: p <= k < p + w ==> Space(s[k])
    ensures w <= SpaceRun(s, p)
    decreases w
  {
    if w > 0 {
      SpaceRunIsLongest(s, p + 1, w - 1);
    }
  }

  lemma {:induction false} FindEndIsFirst(s: string, p: nat, end: nat)
    requires p <= end && EndAt(s, end) && forall k :: p <= k < end ==> s[k] != '\n'
    ensures FindEnd(s, p).Some? && FindEnd(s, p).value <= end
    decreases end - p
  {
    if p < end && !EndAt(s, p) {
      FindEndIsFirst(s, p + 1, end);
    }
  }

  lemma RunStopsBefore(s: string, p: nat, end: nat)
    requires p <= end && EndAt(s, end)
    ensures p + SpaceRun(s, p) <= end
  {
  }

  /** Giving whitespace back to the second star never helps. */
  lemma LongestRunMatches(s: string, i: nat, w: nat, g: nat)
    requires Match(s, i, w, g)
    ensures var p := i + |OPEN|;
            var run := SpaceRun(s, p);
            && w <= run && FindEnd(s, p + run).Some?
            && FindEnd(s, p + run).value <= p + w + g
  {
    var p := i + |OPEN|;
    var run := SpaceRun(s, p);
    var end := p + w + g;
    SpaceRunIsLongest(s, p, w);
    RunStopsBefore(s, p, end);
    FindEndIsFirst(s, p + run, end);
  }

  /** At one position the scanner finds the preferred match, or there is none. */
  lemma ScanIsPreferred(s: string, i: nat)
    requires i <= |s|
    ensures ScanAt(s, i).None? <==> !Matchable(s, i)
    ensures ScanAt(s, i).Some? ==>
              var m := ScanAt(s, i).value;
              Preferred(s, i, m.from - i - |OPEN|, m.to - m.from)
  {
    if At(s, i, OPEN) {
      var p := i + |OPEN|;
      var run := SpaceRun(s, p);
      var e := FindEnd(s, p + run);
      forall w: nat, g: nat | Match(s, i, w, g)
        ensures e.Some? && (w < run || (w == run && e.value - p - run <= g))
      {
        LongestRunMatches(s, i, w, g);
      }
      if e.Some? {
        assert Match(s, i, run, e.value - p - run);
      }
    }
  }

  /** The scanner skips only positions where no marker begins. */
  ghost predicate NothingIn(s: string, i: nat, j: nat)
    requires j <= |s| + 1
  {
    forall k :: i <= k < j ==> ScanAt(s, k).None?
  }

  lemma NothingMore(s: string, i: nat, j: nat)
    requires i < j <= |s| + 1 && ScanAt(s, i).None? && NothingIn(s, i + 1, j)
    ensures NothingIn(s, i, j)
  {
  }

  lemma {:induction false} FirstMarkScans(s: string, i: nat)
    requires i <= |s|
    ensures FirstMark(s, i).None? ==> NothingIn(s, i, |s| + 1)
    ensures FirstMark(s, i).Some? ==>
              var m := FirstMark(s, i).value;
              ScanAt(s, m.start) == Some(m) && NothingIn(s, i, m.start)
    decreases |s| - i
  {
    var here := ScanAt(s, i);
    if here.None? {
      if i < |s| {
        FirstMarkScans(s, i + 1);
        var more := FirstMark(s, i + 1);
        NothingMore(s, i, if more.None? then |s| + 1 else more.value.start);
      }
    }
  }

  /** The mark splits its text as the expression prefers. */
  ghost predicate PrefersMark(s: string, m: Mark) {
    m.start + |OPEN| <= m.from <= m.to && Preferred(s, m.start, m.from - m.start - |OPEN|, m.to - m.from)
  }

  /** The scanner's next marker is the leftmost match of the expression, with its preferred split. */
  lemma FirstMarkIsLeftmost(s: string, i: nat)
    requires i <= |s|
    ensures FirstMark(s, i).None? <==> forall j :: i <= j <= |s| ==> !Matchable(s, j)
    ensures FirstMark(s, i).Some? ==>
              var m := FirstMark(s, i).value;
              && (forall j :: i <= j < m.start ==> !Matchable(s, j))
              && PrefersMark(s, m)
  {
    FirstMarkScans(s, i);
    if FirstMark(s, i).None? {
      NothingMatches(s, i, |s| + 1);
    } else {
      var m := FirstMark(s, i).value;
      NothingMatches(s, i, m.start);
      ScanMatches(s, m);
    }
  }

  lemma ScanMatches(s: string, m: Mark)
    requires m.start <= |s| && ScanAt(s, m.start) == Some(m)
    ensures Matchable(s, m.start) && PrefersMark(s, m)
  {
    ScanIsPreferred(s, m.start);
  }

  lemma NothingMatches(s: string, i: nat, j: nat)
    requires j <= |s| + 1 && NothingIn(s, i, j)
    ensures forall k :: i <= k < j ==> !Matchable(s, k)
  {
    forall k | i <= k < j ensures !Matchable(s, k) {
      ScanIsPreferred(s, k);
    }
  }

  /** Any two ways to say "preferred" agree, so the group is determined. */
  lemma PreferredIsUnique(s: string, i: nat, w: nat, g: nat, w': nat, g': nat)
    requires Preferred(s, i, w, g) && Preferred(s, i, w', g')
    ensures w == w' && g == g'
  {
  }

  // ---- matching a marker again, on its own ----

  lemma {:induction false} SpaceRunIs(s: string, p: nat, n: nat)
    requires p + n < |s| && (forall k :: p <= k < p + n ==> Space(s[k])) && !Space(s[p + n])
    ensures SpaceRun(s, p) == n
    decreases n
  {
    if n > 0 {
      SpaceRunIs(s, p + 1, n - 1);
    }
  }

  lemma {:induction false} FindEndIs(s: string, p: nat, e: nat)
    requires p <= e && EndAt(s, e) && forall k :: p <= k < e ==> s[k] != '\n' && !EndAt(s, k)
    ensures FindEnd(s, p) == Some(e)
    decreases e - p
  {
    if p < e {
      FindEndIs(s, p + 1, e);
    }
  }

  lemma AtSlice(s: string, i: nat, j: nat, k: nat, t: string)
    requires i + k + |t| <= j <= |s|
    ensures At(s[i..j], k, t) <==> At(s, i + k, t)
  {
    SliceOfSlice(s, i, j, k, k + |t|);
  }

  /** What a scan has seen of a marker. */
  ghost predicate Scanned(s: string, m: Mark) {
    && m.start + |OPEN| <= m.from <= m.to < EndOf(m) <= |s|
    && At(s, m.start, OPEN) && EndAt(s, m.to)
    && (forall k :: m.start + |OPEN| <= k < m.from ==> Space(s[k]))
    && !Space(s[m.from])
    && (forall k :: m.from <= k < m.to ==> s[k] != '\n' && !EndAt(s, k))
  }

  lemma ScanSees(s: string, i: nat)
    requires i <= |s| && ScanAt(s, i).Some?
    ensures Scanned(s, ScanAt(s, i).value)
  {
    var m := ScanAt(s, i).value;
  }

  lemma SeenScans(s: string, m: Mark)
    requires Scanned(s, m)
    ensures ScanAt(s, m.start) == Some(m)
  {
    SpaceRunIs(s, m.start + |OPEN|, m.from - m.start - |OPEN|);
    FindEndIs(s, m.from, m.to);
  }

  lemma SeenAlone(s: string, m: Mark)
    requires Scanned(s, m)
    ensures Scanned(s[m.start..EndOf(m)], Mark(0, m.from - m.start, m.to - m.start))
  {
    AtSlice(s, m.start, EndOf(m), 0, OPEN);
    SameCharacters(s, m.start, EndOf(m));
    forall k | m.from - m.start <= k < m.to - m.start ensures !EndAt(s[m.start..EndOf(m)], k) {
      assert !EndAt(s, m.start + k);
    }
  }

  lemma SameCharacters(s: string, i: nat, j: nat)
    requires i <= j <= |s|
    ensures var t := s[i..j]; forall k :: 0 <= k < |t| ==> t[k] == s[i + k]
  {
  }

  lemma ScanIsFirst(s: string, i: nat)
    requires i <= |s| && ScanAt(s, i).Some?
    ensures FirstMark(s, i) == ScanAt(s, i)
  {
  }

  lemma MarkAlone(s: string, m: Mark)
    requires Scanned(s, m)
    ensures FirstMark(s[m.start..EndOf(m)], 0) == Some(Mark(0, m.from - m.start, m.to - m.start))
  {
    SeenAlone(s, m);
    SeenScans(s[m.start..EndOf(m)], Mark(0, m.from - m.start, m.to - m.start));
    ScanIsFirst(s[m.start..EndOf(m)], 0);
  }

  /** FindStringSubmatch on the matched text alone gives the whole text and the same group. */
  lemma RematchGivesSameGroup(s: string, i: nat)
    requires i <= |s| && FirstMark(s, i).Some?
    ensures var m := FirstMark(s, i).value;
            && FirstMark(s[m.start..EndOf(m)], 0) == Some(Mark(0, m.from - m.start, m.to - m.start))
            && s[m.start..EndOf(m)][m.from - m.start..m.to - m.start] == s[m.from..m.to]
  {
    var m := FirstMark(s, i).value;
    FirstIsScanned(s, i);
    GroupAlone(s, m);
  }

  lemma FirstIsScanned(s: string, i: nat)
    requires i <= |s| && FirstMark(s, i).Some?
    ensures Scanned(s, FirstMark(s, i).value)
  {
    FirstMarkScans(s, i);
    ScanSees(s, FirstMark(s, i).value.start);
  }

  lemma GroupAlone(s: string, m: Mark)
    requires Scanned(s, m)
    ensures FirstMark(s[m.start..EndOf(m)], 0) == Some(Mark(0, m.from - m.start, m.to - m.start))
    ensures s[m.start..EndOf(m)][m.from - m.start..m.to - m.start] == s[m.from..m.to]
  {
    MarkAlone(s, m);
    SliceOfSlice(s, m.start, EndOf(m), m.from - m.start, m.to - m.start);
  }

  // ---- the replacement ----

  /** What one marker becomes: the value of its trimmed group, or its own text if that fails. */
  function Rendered(text: string, eval: string -> Option<string>): string {
    var again := FirstMark(text, 0);
    if again.None? then text
    else
      var v := eval(TrimSpace(text[again.value.from..again.value.to]));
      if v.Some? then v.value else text
  }

  /** ReplaceAllStringFunc from position i on. */
  function Replace(s: string, i: nat, eval: string -> Option<string>): string
    requires i <= |s|
    decreases |s| - i
  {
    var m := FirstMark(s, i);
    if m.None? then s[i..]
    else s[i..m.value.start] + Rendered(s[m.value.start..EndOf(m.value)], eval) + Replace(s, EndOf(m.value), eval)
  }

  /** The text as gaps and markers. */
  datatype Piece = Gap(text: string) | Marker(text: string, group: string)

  function Pieces(s: string, i: nat): seq<Piece>
    requires i <= |s|
    decreases |s| - i
  {
    var m := FirstMark(s, i);
    if m.None? then [Gap(s[i..])]
    else [Gap(s[i..m.value.start]),
          Marker(s[m.value.start..EndOf(m.value)], s[m.value.from..m.value.to])] + Pieces(s, EndOf(m.value))
  }

  function Source(ps: seq<Piece>): string {
    if ps == [] then "" else ps[0].text + Source(ps[1..])
  }

  function Value(p: Piece, eval: string -> Option<string>): string {
    match p
    case Gap(t) => t
    case Marker(t, g) => var v := eval(TrimSpace(g)); if v.Some? then v.value else t
  }

  function Output(ps: seq<Piece>, eval: string -> Option<string>): string {
    if ps == [] then "" else Value(ps[0], eval) + Output(ps[1..], eval)
  }

  /** The pieces are the text, nothing lost and nothing repeated. */
  lemma {:induction false} PiecesAreTheText(s: string, i: nat)
    requires i <= |s|
    ensures Source(Pieces(s, i)) == s[i..]
    decreases |s| - i
  {
    var m := FirstMark(s, i);
    if m.None? {
      assert Pieces(s, i)[1..] == [];
    } else {
      PiecesAreTheText(s, EndOf(m.value));
      SourceOfTwo(Gap(s[i..m.value.start]),
                  Marker(s[m.value.start..EndOf(m.value)], s[m.value.from..m.value.to]), Pieces(s, EndOf(m.value)));
      ThreeParts(s, i, m.value.start, EndOf(m.value));
    }
  }

  lemma RenderedBy(text: string, m: Mark, group: string, eval: string -> Option<string>)
    requires FirstMark(text, 0) == Some(m) && text[m.from..m.to] == group
    ensures Rendered(text, eval) == Value(Marker(text, group), eval)
  {
  }

  lemma RenderedIsValue(s: string, m: Mark, eval: string -> Option<string>)
    requires Scanned(s, m)
    ensures Rendered(s[m.start..EndOf(m)], eval) == Value(Marker(s[m.start..EndOf(m)], s[m.from..m.to]), eval)
  {
    GroupAlone(s, m);
    RenderedBy(s[m.start..EndOf(m)], Mark(0, m.from - m.start, m.to - m.start), s[m.from..m.to], eval);
  }

  lemma SliceOfSlice(s: string, i: nat, j: nat, a: nat, b: nat)
    requires i <= j <= |s| && a <= b <= j - i
    ensures s[i..j][a..b] == s[i + a..i + b]
  {
    var l, r := s[i..j][a..b], s[i + a..i + b];
    assert |l| == |r| && forall k :: 0 <= k < |l| ==> l[k] == r[k];
    assert l == r;
  }

  lemma SourceOfTwo(a: Piece, b: Piece, rest: seq<Piece>)
    ensures Source([a, b] + rest) == a.text + b.text + Source(rest)
  {
    assert ([a, b] + rest)[1..] == [b] + rest;
    assert ([b] + rest)[1..] == rest;
  }

  lemma ThreeParts(s: string, i: nat, j: nat, k: nat)
    requires i <= j <= k <= |s|
    ensures s[i..j] + s[j..k] + s[k..] == s[i..]
  {
  }

  lemma OutputCons(a: Piece, rest: seq<Piece>, eval: string -> Option<string>)
    ensures Output([a] + rest, eval) == Value(a, eval) + Output(rest, eval)
  {
    assert ([a] + rest)[1..] == rest;
  }

  lemma OutputOfTwo(a: Piece, b: Piece, rest: seq<Piece>, eval: string -> Option<string>)
    ensures Output([a, b] + rest, eval) == Value(a, eval) + Value(b, eval) + Output(rest, eval)
  {
    assert [a, b] + rest == [a] + ([b] + rest);
    OutputCons(a, [b] + rest, eval);
    OutputCons(b, rest, eval);
  }

  /** The stage keeps every gap and puts every marker's value, or its own text, in its place; the group
      it evaluates is the one of the match in the whole text. */
  lemma {:induction false} ReplaceIsOutput(s: string, i: nat, eval: string -> Option<string>)
    requires i <= |s|
    ensures Replace(s, i, eval) == Output(Pieces(s, i), eval)
    decreases |s| - i
  {
    var m := FirstMark(s, i);
    if m.None? {
      assert Pieces(s, i)[1..] == [];
    } else {
      var mark := m.value;
      ReplaceIsOutput(s, EndOf(mark), eval);
      FirstIsScanned(s, i);
      RenderedIsValue(s, mark, eval);
      OutputOfTwo(Gap(s[i..mark.start]), Marker(s[mark.start..EndOf(mark)], s[mark.from..mark.to]),
                  Pieces(s, EndOf(mark)), eval);
    }
  }

  /** If no evaluation succeeds, the stage returns its input. */
  lemma {:induction false} FailedScriptsChangeNothing(s: string, i: nat, eval: string -> Option<string>)
    requires i <= |s| && forall p :: p in Pieces(s, i) && p.Marker? ==> eval(TrimSpace(p.group)).None?
    ensures Replace(s, i, eval) == s[i..]
    decreases |s| - i
  {
    ReplaceIsOutput(s, i, eval);
    PiecesAreTheText(s, i);
    OutputIsSource(Pieces(s, i), eval);
  }

  lemma {:induction false} OutputIsSource(ps: seq<Piece>, eval: string -> Option<string>)
    requires forall p :: p in ps && p.Marker? ==> eval(TrimSpace(p.group)).None?
    ensures Output(ps, eval) == Source(ps)
  {
    if ps != [] {
      OutputIsSource(ps[1..], eval);
    }
  }
}
