/** The short-hand step of applyTpl in rules.go: one left-to-right pass that turns {{path}}, {{host}} and
    {{query. into the template actions {{.path}}, {{.host}} and {{.query. */
module Replacer {
  import opened Prelude
  import opened Markers

  datatype Pair = Pair(short: string, action: string)

  const PAIRS: seq<Pair> :=
    [Pair("{{path}}", "{{.path}}"), Pair("{{host}}", "{{.host}}"), Pair("{{query.", "{{.query.")]

  /** The first pair, in argument order, whose short form stands at position i. */
  function PairAt(s: string, i: nat): (p: Option<Pair>) {
    if At(s, i, PAIRS[0].short) then Some(PAIRS[0])
    else if At(s, i, PAIRS[1].short) then Some(PAIRS[1])
    else if At(s, i, PAIRS[2].short) then Some(PAIRS[2])
    else None
  }

  /** The replacer's pass from position i on: a replaced text is not looked at again. */
  function Pass(s: string, i: nat): string
    requires i <= |s|
    decreases |s| - i
  {
    if i == |s| then ""
    else if PairAt(s, i).Some? then PairAt(s, i).value.action + Pass(s, i + |PairAt(s, i).value.short|)
    else [s[i]] + Pass(s, i + 1)
  }

  function Occurrences(s: string): set<nat> {
    set i: nat | i <= |s| && PairAt(s, i).Some?
  }

  /** The text from i on, one character at a time, with a dot before the third character of every
      occurrence in hits, whatever came before. */
  function Dotted(s: string, hits: set<nat>, i: nat): string
    requires i <= |s|
    decreases |s| - i
  {
    if i == |s| then ""
    else
      var more := [s[i]] + Dotted(s, hits, i + 1);
      if i >= 2 && i - 2 in hits then "." + more else more
  }

  // ---- shape of the three pairs ----

  /** No brace is followed by another one. */
  ghost predicate SingleBraces(u: string) {
    forall k :: 0 <= k < |u| && u[k] == '{' ==> k + 1 < |u| && u[k + 1] != '{'
  }

  predicate Shaped(p: Pair) {
    && |p.short| == 8 && |p.action| == 9 && p.short[0] == p.short[1] == '{'
    && p.action == "{{." + p.short[2..]
    && forall k :: 2 <= k < 8 ==> p.short[k] != '{'
  }

  lemma PathIsShaped()
    ensures Shaped(PAIRS[0])
  {
    assert PAIRS[0].action == "{{." + PAIRS[0].short[2..];
  }

  lemma HostIsShaped()
    ensures Shaped(PAIRS[1])
  {
    assert PAIRS[1].action == "{{." + PAIRS[1].short[2..];
  }

  lemma QueryIsShaped()
    ensures Shaped(PAIRS[2])
  {
    assert PAIRS[2].action == "{{." + PAIRS[2].short[2..];
  }

  lemma PairShape(p: Pair)
    requires p in PAIRS
    ensures Shaped(p) && SingleBraces(p.short[1..])
  {
    PathIsShaped();
    HostIsShaped();
    QueryIsShaped();
    assert p == PAIRS[0] || p == PAIRS[1] || p == PAIRS[2];
  }

  lemma PairText(s: string, i: nat)
    requires PairAt(s, i).Some?
    ensures PairAt(s, i).value in PAIRS
    ensures i + 8 <= |s| && s[i..i + 8] == PairAt(s, i).value.short
    ensures s[i] == s[i + 1] == '{' && s[i + 2] != '.' && forall k :: i + 2 <= k < i + 8 ==> s[k] != '{'
  {
    var p := PairAt(s, i).value;
    PairShape(p);
    assert s[i..i + 8] == p.short;
    assert forall k :: i <= k < i + 8 ==> s[k] == p.short[k - i];
  }

  /** The three short forms. */
  lemma ShortForms(s: string, i: nat)
    ensures PairAt(s, i).Some? <==>
            i + 8 <= |s| && s[i..i + 8] in {"{{path}}", "{{host}}", "{{query."}
  {
  }

  /** Occurrences never overlap, so every one of them is replaced. */
  lemma OccurrencesDoNotOverlap(s: string, i: nat, j: nat)
    requires PairAt(s, i).Some? && i < j < i + 8
    ensures PairAt(s, j).None?
  {
    PairText(s, i);
    if PairAt(s, j).Some? {
      PairText(s, j);
    }
  }

  lemma OccurrencesAreSpaced(s: string)
    ensures Spaced(Occurrences(s), |s|)
  {
    forall i, j | i in Occurrences(s) && j in Occurrences(s) && i < j ensures i + 8 <= j {
      if j < i + 8 {
        OccurrencesDoNotOverlap(s, i, j);
      }
    }
    forall i | i in Occurrences(s) ensures i + 8 <= |s| {
      PairText(s, i);
    }
  }

  // ---- the pass is the character-by-character form ----

  ghost predicate Spaced(hits: set<nat>, n: nat) {
    && (forall i :: i in hits ==> i + 8 <= n)
    && forall i, j :: i in hits && j in hits && i < j ==> i + 8 <= j
  }

  /** No dot goes in at any position from i up to j. */
  ghost predicate Quiet(hits: set<nat>, i: nat, j: nat) {
    forall k :: k in hits ==> !(i <= k + 2 < j)
  }

  lemma {:induction false} DottedCopies(s: string, hits: set<nat>, i: nat, j: nat)
    requires i <= j <= |s| && Quiet(hits, i, j)
    ensures Dotted(s, hits, i) == s[i..j] + Dotted(s, hits, j)
    decreases j - i
  {
    if i < j {
      DottedCopies(s, hits, i + 1, j);
      FirstOfSlice(s, i, j, Dotted(s, hits, j));
    }
  }

  lemma FirstOfSlice(s: string, i: nat, j: nat, rest: string)
    requires i < j <= |s|
    ensures [s[i]] + (s[i + 1..j] + rest) == s[i..j] + rest
  {
  }

  /** The occurrence at i, replaced. */
  function WithDot(s: string, i: nat, rest: string): string
    requires i + 8 <= |s|
  {
    s[i..i + 2] + "." + s[i + 2..i + 8] + rest
  }

  /** One occurrence in the character-by-character form. */
  lemma DottedHit(s: string, hits: set<nat>, i: nat)
    requires Spaced(hits, |s|) && i in hits && Quiet(hits, i, i + 2)
    ensures i + 8 <= |s| && Quiet(hits, i + 8, i + 10)
    ensures Dotted(s, hits, i) == WithDot(s, i, Dotted(s, hits, i + 8))
  {
    DottedCopies(s, hits, i, i + 2);
    DottedCopies(s, hits, i + 3, i + 8);
    FirstOfSlice(s, i + 2, i + 8, Dotted(s, hits, i + 8));
    Glue(s[i..i + 2], s[i + 2..i + 8], Dotted(s, hits, i + 8));
  }

  lemma Glue(a: string, b: string, c: string)
    ensures a + ("." + (b + c)) == a + "." + b + c
  {
  }

  lemma ActionIs(s: string, i: nat, p: Pair)
    requires p in PAIRS && i + 8 <= |s| && s[i..i + 8] == p.short
    ensures p.action == s[i..i + 2] + "." + s[i + 2..i + 8]
  {
    PairShape(p);
    assert p.short[2..] == s[i + 2..i + 8];
    assert p.short[..2] == s[i..i + 2] && p.short[..2] == "{{";
  }

  lemma PassAt(s: string, i: nat)
    requires i < |s|
    ensures PairAt(s, i).Some? ==>
              i + 8 <= |s| && Pass(s, i) == WithDot(s, i, Pass(s, i + 8))
    ensures PairAt(s, i).None? ==> Pass(s, i) == [s[i]] + Pass(s, i + 1)
  {
    if PairAt(s, i).Some? {
      PairText(s, i);
      PairShape(PairAt(s, i).value);
      ActionIs(s, i, PairAt(s, i).value);
    }
  }

  lemma DottedPlain(s: string, hits: set<nat>, i: nat)
    requires i < |s| && Quiet(hits, i, i + 2)
    ensures Dotted(s, hits, i) == [s[i]] + Dotted(s, hits, i + 1)
  {
  }

  lemma QuietNext(hits: set<nat>, i: nat)
    requires Quiet(hits, i, i + 2) && i !in hits
    ensures Quiet(hits, i + 1, i + 3)
  {
  }

  lemma {:induction false} PassIsDottedFrom(s: string, i: nat, hits: set<nat>)
    requires i <= |s| && hits == Occurrences(s) && Spaced(hits, |s|) && Quiet(hits, i, i + 2)
    ensures Pass(s, i) == Dotted(s, hits, i)
    decreases |s| - i
  {
    if i < |s| {
      PassAt(s, i);
      if i in hits {
        DottedHit(s, hits, i);
        PassIsDottedFrom(s, i + 8, hits);
      } else {
        DottedPlain(s, hits, i);
        QuietNext(hits, i);
        PassIsDottedFrom(s, i + 1, hits);
      }
    }
  }

  /** The pass replaces exactly the occurrences, wherever they stand. */
  lemma PassIsDotted(s: string)
    ensures Pass(s, 0) == Dotted(s, Occurrences(s), 0)
  {
    OccurrencesAreSpaced(s);
    PassIsDottedFrom(s, 0, Occurrences(s));
  }

  function HitsFrom(hits: set<nat>, i: nat): set<nat> {
    set k | k in hits && i <= k + 2
  }

  lemma {:induction false} DottedLength(s: string, hits: set<nat>, i: nat)
    requires i <= |s| && forall k :: k in hits ==> k + 2 < |s|
    ensures |Dotted(s, hits, i)| == |s| - i + |HitsFrom(hits, i)|
    decreases |s| - i
  {
    if i == |s| {
      assert HitsFrom(hits, i) == {};
    } else {
      DottedLength(s, hits, i + 1);
      if i >= 2 && i - 2 in hits {
        assert HitsFrom(hits, i) == HitsFrom(hits, i + 1) + {i - 2};
      } else {
        assert HitsFrom(hits, i) == HitsFrom(hits, i + 1);
      }
    }
  }

  /** The output is longer by one character for each occurrence. */
  lemma LengthGrowsByOccurrences(s: string)
    ensures |Pass(s, 0)| == |s| + |Occurrences(s)|
  {
    PassIsDotted(s);
    OccurrencesAreSpaced(s);
    DottedLength(s, Occurrences(s), 0);
    assert HitsFrom(Occurrences(s), 0) == Occurrences(s);
  }

  // ---- nothing is left to replace ----

  /** A piece of output without double braces was copied, character by character. */
  lemma {:induction false} SingleBracesAreCopied(s: string, i: nat, u: string)
    requires i <= |s| && SingleBraces(u) && u <= Pass(s, i)
    ensures i + |u| <= |s| && s[i..i + |u|] == u
    decreases |u|
  {
    if u != [] {
      assert u[0] == Pass(s, i)[0];
      assert |u| >= 2 ==> u[1] == Pass(s, i)[1];
      if PairAt(s, i).Some? {
        PairShape(PairAt(s, i).value);
        assert false;
      }
      assert Pass(s, i)[1..] == Pass(s, i + 1);
      assert u[1..] <= Pass(s, i + 1);
      SingleBracesAreCopied(s, i + 1, u[1..]);
    }
  }

  ghost predicate Clean(s: string) {
    forall i: nat :: PairAt(s, i).None?
  }

  lemma AtAfter(a: string, b: string, j: nat, t: string)
    ensures At(a + b, |a| + j, t) <==> At(b, j, t)
  {
    if j + |t| <= |b| {
      assert (a + b)[|a| + j..|a| + j + |t|] == b[j..j + |t|];
    }
  }

  lemma PairAtAfter(a: string, b: string, j: nat)
    ensures PairAt(a + b, |a| + j) == PairAt(b, j)
  {
    AtAfter(a, b, j, PAIRS[0].short);
    AtAfter(a, b, j, PAIRS[1].short);
    AtAfter(a, b, j, PAIRS[2].short);
  }

  /** A short form that begins with a copied character of the output was in the input. */
  lemma CopiedOccurrence(s: string, i: nat, p: Pair)
    requires i < |s| && Pass(s, i) == [s[i]] + Pass(s, i + 1) && p in PAIRS && p.short <= Pass(s, i)
    ensures At(s, i, p.short)
  {
    PairShape(p);
    var out := Pass(s, i);
    assert p.short[1..] == out[1..8] <= Pass(s, i + 1);
    SingleBracesAreCopied(s, i + 1, p.short[1..]);
    assert s[i] == out[0] == p.short[0];
  }

  lemma CopiedHead(s: string, i: nat)
    requires i < |s| && PairAt(s, i).None?
    ensures PairAt(Pass(s, i), 0).None?
  {
    if PairAt(Pass(s, i), 0).Some? {
      PairText(Pass(s, i), 0);
      CopiedOccurrence(s, i, PairAt(Pass(s, i), 0).value);
    }
  }

  lemma ReplacedHead(p: Pair, rest: string, j: nat)
    requires p in PAIRS && j < |p.action|
    ensures PairAt(p.action + rest, j).None?
  {
    PairShape(p);
    if PairAt(p.action + rest, j).Some? {
      PairText(p.action + rest, j);
    }
  }

  lemma CleanBehind(head: string, rest: string)
    requires Clean(rest) && forall j: nat :: j < |head| ==> PairAt(head + rest, j).None?
    ensures Clean(head + rest)
  {
    forall j: nat ensures PairAt(head + rest, j).None? {
      if j >= |head| {
        PairAtAfter(head, rest, j - |head|);
      }
    }
  }

  /** The output holds no short form, not even across the seam of a copied and a replaced text. */
  lemma {:induction false} PassIsClean(s: string, i: nat)
    requires i <= |s|
    ensures Clean(Pass(s, i))
    decreases |s| - i
  {
    if i < |s| {
      if PairAt(s, i).Some? {
        var p := PairAt(s, i).value;
        PairText(s, i);
        PairShape(p);
        PassIsClean(s, i + 8);
        var rest := Pass(s, i + 8);
        var out := p.action + rest;
        forall j: nat | j < |p.action| ensures PairAt(out, j).None? {
          ReplacedHead(p, rest, j);
        }
        CleanBehind(p.action, rest);
      } else {
        PassIsClean(s, i + 1);
        CopiedHead(s, i);
        CleanBehind([s[i]], Pass(s, i + 1));
      }
    }
  }

  /** The pass leaves exactly the clean texts as they are. */
  lemma PassFixes(s: string)
    ensures Pass(s, 0) == s <==> Clean(s)
  {
    if Clean(s) {
      PassIsDotted(s);
      DottedCopies(s, Occurrences(s), 0, |s|);
    } else {
      var k: nat :| PairAt(s, k).Some?;
      LengthGrowsByOccurrences(s);
      PairShape(PairAt(s, k).value);
      assert k in Occurrences(s);
    }
  }

  lemma PassIsIdempotent(s: string)
    ensures Pass(Pass(s, 0), 0) == Pass(s, 0)
  {
    PassIsClean(s, 0);
    PassFixes(Pass(s, 0));
  }
}
