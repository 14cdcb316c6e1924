/** C strings in fixed buffers: what a NUL-terminated buffer holds, and the library calls and
    helpers that the policy reader makes on such buffers.  One char stands for one byte. */
module CStrings {
  const NUL: char := '\0'

  /** The string a buffer holds: its bytes before the first NUL (all of them if there is none). */
  function CStr(b: seq<char>): (s: string)
    ensures s <= b && NUL !in s
    ensures |s| < |b| ==> b[|s|] == NUL
  {
    if b == [] || b[0] == NUL then [] else [b[0]] + CStr(b[1..])
  }

  /** The buffer holds the string s, terminator included, from offset `at` on. */
  ghost predicate Holds(b: seq<char>, at: nat, s: string) {
    && at + |s| < |b|
    && b[at..at + |s|] == s
    && b[at + |s|] == NUL
    && NUL !in s
  }

  lemma {:induction false} CStrUnique(b: seq<char>, s: string)
    requires s <= b && NUL !in s && (|s| < |b| ==> b[|s|] == NUL)
    ensures CStr(b) == s
  {
    if s != [] {
      assert b[0] == s[0];
      CStrUnique(b[1..], s[1..]);
    }
  }

  /** What strncpy into a zero-terminated buffer of `size` bytes keeps of v. */
  function Cut(v: string, size: nat): (r: string)
    ensures r <= v
    ensures |v| < size ==> r == v
  {
    if |v| < size then v else if size == 0 then [] else v[..size - 1]
  }

  /** strncpy over all but the last byte of dst: copies, pads with NULs, never touches that byte. */
  method StrNCpy(dst: array<char>, v: string)
    requires dst.Length > 0 && NUL !in v
    modifies dst
    ensures forall i :: 0 <= i < dst.Length - 1 ==> dst[i] == if i < |v| then v[i] else NUL
    ensures dst[dst.Length - 1] == old(dst[dst.Length - 1])
    ensures dst[dst.Length - 1] == NUL ==> CStr(dst[..]) == Cut(v, dst.Length)
  {
    var n := dst.Length - 1;
    forall i | 0 <= i < n {
      dst[i] := if i < |v| then v[i] else NUL;
    }
    if dst[n] == NUL {
      CStrUnique(dst[..], Cut(v, dst.Length));
    }
  }

  /** The bytes that the policy reader trims. */
  const BLANKS: string := " \t\r\n"

  /** s without the bytes of `set` at its front, at its end, at both. */
  function TrimLeft(s: string, bytes: string): string {
    if s != [] && s[0] in bytes then TrimLeft(s[1..], bytes) else s
  }

  function TrimRight(s: string, bytes: string): string {
    if s != [] && s[|s| - 1] in bytes then TrimRight(s[..|s| - 1], bytes) else s
  }

  function TrimSet(s: string, bytes: string): string {
    TrimRight(TrimLeft(s, bytes), bytes)
  }

  function Trim(s: string): string { TrimSet(s, BLANKS) }

  /** What a trim drops, and that it drops all of it. */
  lemma {:induction false} TrimLeftDrops(s: string, bytes: string) returns (i: nat)
    ensures i <= |s| && TrimLeft(s, bytes) == s[i..] && (i < |s| ==> s[i] !in bytes)
    ensures forall k :: 0 <= k < i ==> s[k] in bytes
  {
    i := 0;
    if s != [] && s[0] in bytes {
      i := TrimLeftDrops(s[1..], bytes);
      assert forall k :: 1 <= k < i + 1 ==> s[k] == s[1..][k - 1];
      i := i + 1;
    }
  }

  lemma {:induction false} TrimRightDrops(s: string, bytes: string) returns (n: nat)
    ensures n <= |s| && TrimRight(s, bytes) == s[..n] && (n > 0 ==> s[n - 1] !in bytes)
    ensures forall k :: n <= k < |s| ==> s[k] in bytes
  {
    n := |s|;
    if s != [] && s[|s| - 1] in bytes {
      var init := s[..|s| - 1];
      n := TrimRightDrops(init, bytes);
      assert forall k :: n <= k < |s| - 1 ==> s[k] == init[k];
      assert init[..n] == s[..n];
    } else {
      assert s[..n] == s;
    }
  }

  /** Trimming yields a part of the text that neither starts nor ends with a trimmed byte. */
  lemma TrimIsInner(s: string, bytes: string) returns (i: nat, j: nat)
    ensures i <= j <= |s| && TrimSet(s, bytes) == s[i..j]
    ensures i < j ==> s[i] !in bytes && s[j - 1] !in bytes
  {
    i := TrimLeftDrops(s, bytes);
    var n := TrimRightDrops(s[i..], bytes);
    j := i + n;
    assert s[i..][..n] == s[i..j];
  }

  /** Text with no such byte at either end is its own trimming. */
  lemma TrimOfSolid(s: string, bytes: string)
    requires s != [] ==> s[0] !in bytes && s[|s| - 1] !in bytes
    ensures TrimSet(s, bytes) == s
  {
  }

  /** The same behind a final newline. */
  lemma TrimOfLine(s: string)
    requires s != [] ==> s[0] !in BLANKS && s[|s| - 1] !in BLANKS
    ensures Trim(s + ['\n']) == s
  {
    var l := s + ['\n'];
    if s == [] {
      assert TrimLeft(l[1..], BLANKS) == [];
    } else {
      assert l[0] == s[0];
      assert TrimLeft(l, BLANKS) == l;
      assert l[|l| - 1] == '\n' && l[..|l| - 1] == s;
      assert TrimRight(s, BLANKS) == s;
    }
  }

  /** The reader's trim, moving bytes inside the buffer: it works on the string at offset `at`
      and leaves everything before that offset alone. */
  method TrimInPlace(b: array<char>, at: nat, ghost s: string)
    requires Holds(b[..], at, s)
    modifies b
    ensures Holds(b[..], at, Trim(s))
    ensures b[..at] == old(b[..at]) && b[at + |s| + 1..] == old(b[at + |s| + 1..])
  {
    DropLeading(b, at, s);
    ghost var mid := b[..];
    DropTrailing(b, at, TrimLeft(s, BLANKS));
    ghost var k := |s| - |TrimLeft(s, BLANKS)|;
    assert b[at + |s| + 1..] == b[at + |TrimLeft(s, BLANKS)| + 1..][k..];
    assert mid[at + |s| + 1..] == mid[at + |TrimLeft(s, BLANKS)| + 1..][k..];
  }

  method DropLeading(b: array<char>, at: nat, ghost s: string)
    requires Holds(b[..], at, s)
    modifies b
    ensures Holds(b[..], at, TrimLeft(s, BLANKS)) && |TrimLeft(s, BLANKS)| <= |s|
    ensures b[..at] == old(b[..at]) && b[at + |s| + 1..] == old(b[at + |s| + 1..])
  {
    var p := at;
    while b[p] in BLANKS
      invariant at <= p <= at + |s|
      invariant TrimLeft(s, BLANKS) == TrimLeft(s[p - at..], BLANKS)
      decreases at + |s| - p
    {
      assert s[p - at] == b[..][at..at + |s|][p - at];
      p := p + 1;
    }
    ghost var u := s[p - at..];
    assert u == b[..][p..p + |u|];
    assert u != [] ==> u[0] == b[p];
    assert TrimLeft(u, BLANKS) == u;
    if p != at {
      MoveDown(b, at, p, u);
    }
  }

  /** Moves the string at p, its terminator included, down to offset `at`. */
  method MoveDown(b: array<char>, at: nat, p: nat, ghost u: string)
    requires at <= p && Holds(b[..], p, u)
    modifies b
    ensures Holds(b[..], at, u)
    ensures b[..at] == old(b[..at]) && b[p + |u| + 1..] == old(b[p + |u| + 1..])
  {
    assert u == b[..][p..p + |u|];
    var n := StrLen(b, p, u);
    forall i | 0 <= i <= n {
      b[at + i] := b[p + i];
    }
    assert b[..][at..at + |u|] == u;
  }

  method DropTrailing(b: array<char>, at: nat, ghost s: string)
    requires Holds(b[..], at, s)
    modifies b
    ensures Holds(b[..], at, TrimRight(s, BLANKS))
    ensures b[..at] == old(b[..at]) && b[at + |s| + 1..] == old(b[at + |s| + 1..])
  {
    assert s == b[..][at..at + |s|];
    var n := CutBlanks(b, at, s);
    ghost var t := s[..n];
    assert b[..][at..at + n] == t;
  }

  /** Overwrites trailing blanks with NULs, from the end; n characters are left. */
  method CutBlanks(b: array<char>, at: nat, ghost s: string) returns (n: nat)
    requires forall i :: 0 <= i < |s| ==> at + i < b.Length && b[at + i] == s[i]
    requires NUL !in s && at + |s| < b.Length && b[at + |s|] == NUL
    modifies b
    ensures n <= |s| && TrimRight(s, BLANKS) == s[..n]
    ensures (forall i :: 0 <= i < n ==> b[at + i] == s[i]) && b[at + n] == NUL
    ensures forall i :: 0 <= i < b.Length && (i < at || i > at + |s|) ==> b[i] == old(b[i])
  {
    n := StrLen(b, at, s);
    assert s[..n] == s;
    while n > 0 && b[at + n - 1] in BLANKS
      invariant n <= |s|
      invariant forall i :: 0 <= i < n ==> b[at + i] == s[i]
      invariant b[at + n] == NUL
      invariant forall i :: 0 <= i < b.Length && (i < at || i > at + |s|) ==> b[i] == old(b[i])
      invariant TrimRight(s, BLANKS) == TrimRight(s[..n], BLANKS)
    {
      assert s[..n][..n - 1] == s[..n - 1];
      n := n - 1;
      b[at + n] := NUL;
    }
  }

  /** The string that a pointer into the buffer stands for. */
  method ReadStr(b: array<char>, at: nat, ghost s: string) returns (r: string)
    requires Holds(b[..], at, s)
    ensures r == s
  {
    assert s == b[..][at..at + |s|];
    var n := StrLen(b, at, s);
    r := b[at..at + n];
  }

  /** strlen of the string at offset `at`. */
  method StrLen(b: array<char>, at: nat, ghost s: string) returns (n: nat)
    requires forall i :: 0 <= i < |s| ==> at + i < b.Length && b[at + i] == s[i]
    requires NUL !in s && at + |s| < b.Length && b[at + |s|] == NUL
    ensures n == |s|
  {
    n := 0;
    while b[at + n] != NUL
      invariant n <= |s| && (n < |s| ==> b[at + n] == s[n] && s[n] in s)
      decreases |s| - n
    {
      n := n + 1;
    }
  }

  /** Cutting a line at an offset and trimming both halves where they stand. */
  method TrimHalves(b: array<char>, ghost l: string, eq: nat)
    requires Holds(b[..], 0, l) && eq < |l|
    modifies b
    ensures Holds(b[..], 0, Trim(l[..eq]))
    ensures Holds(b[..], eq + 1, Trim(l[eq + 1..]))
  {
    CutAt(b, 0, l, eq);
    ghost var cut := b[..];
    TrimInPlace(b, 0, l[..eq]);
    HoldsBehind(cut, b[..], eq + 1, l[eq + 1..]);
    ghost var mid := b[..];
    TrimInPlace(b, eq + 1, l[eq + 1..]);
    var _, _ := TrimIsInner(l[..eq], BLANKS);
    HoldsBefore(mid, b[..], eq + 1, Trim(l[..eq]));
  }

  lemma HoldsBehind(b: seq<char>, b': seq<char>, at: nat, s: string)
    requires at <= |b| == |b'| && b[at..] == b'[at..] && Holds(b, at, s)
    ensures Holds(b', at, s)
  {
    assert b'[at..at + |s|] == b'[at..][..|s|];
    assert b[at..at + |s|] == b[at..][..|s|];
    assert b'[at + |s|] == b'[at..][|s|];
  }

  lemma HoldsBefore(b: seq<char>, b': seq<char>, n: nat, s: string)
    requires n <= |b| == |b'| && b[..n] == b'[..n] && Holds(b, 0, s) && |s| < n
    ensures Holds(b', 0, s)
  {
    assert b'[0..|s|] == b'[..n][..|s|];
    assert b[0..|s|] == b[..n][..|s|];
    assert b'[|s|] == b'[..n][|s|];
  }

  /** The index of the first c in s, or |s|: strchr. */
  function IndexOf(s: string, c: char): (i: nat)
    ensures i <= |s| && c !in s[..i]
    ensures i < |s| ==> s[i] == c
  {
    if s == [] || s[0] == c then 0 else 1 + IndexOf(s[1..], c)
  }

  lemma {:induction false} IndexOfSplit(k: string, c: char, v: string)
    requires c !in k
    ensures IndexOf(k + [c] + v, c) == |k|
  {
    if k == [] {
      assert (k + [c] + v)[0] == c;
    } else {
      assert (k + [c] + v)[1..] == k[1..] + [c] + v;
      IndexOfSplit(k[1..], c, v);
    }
  }

  /** strtok_r over a set of delimiters: the maximal runs of other characters. */
  function Span(s: string, delims: string): (n: nat)
    ensures n <= |s| && (forall i :: 0 <= i < n ==> s[i] !in delims)
    ensures n < |s| ==> s[n] in delims
  {
    if s == [] || s[0] in delims then 0 else 1 + Span(s[1..], delims)
  }

  function Tokens(s: string, delims: string): seq<string>
    decreases |s|
  {
    if s == [] then []
    else if s[0] in delims then Tokens(s[1..], delims)
    else
      var n := Span(s, delims);
      [s[..n]] + Tokens(s[n..], delims)
  }

  /** strtok_r on the string at offset `at`: skips delimiters, ends the token with a NUL in the
      buffer, and says where the next call goes on. */
  method StrTok(b: array<char>, at: nat, delims: string, ghost s: string)
    returns (found: bool, start: nat, next: nat, ghost rest: string)
    requires Holds(b[..], at, s) && NUL !in delims
    modifies b
    ensures found <==> Tokens(s, delims) != []
    ensures found ==> Holds(b[..], start, Tokens(s, delims)[0])
    ensures found ==> Holds(b[..], next, rest) && |rest| < |s|
    ensures found ==> Tokens(rest, delims) == Tokens(s, delims)[1..]
  {
    ghost var u;
    start, u := SkipDelims(b, at, delims, s);
    found := b[start] != NUL;
    next, rest := start, [];
    if found {
      next, rest := EndToken(b, start, delims, u);
    }
  }

  method SkipDelims(b: array<char>, at: nat, delims: string, ghost s: string)
    returns (start: nat, ghost u: string)
    requires Holds(b[..], at, s) && NUL !in delims
    ensures Holds(b[..], start, u) && |u| <= |s| && Tokens(s, delims) == Tokens(u, delims)
    ensures if u == [] then b[start] == NUL else b[start] == u[0] && u[0] !in delims && u[0] != NUL
  {
    assert s == b[..][at..at + |s|];
    start, u := at, s;
    while b[start] in delims
      invariant Holds(b[..], start, u) && |u| <= |s| && Tokens(s, delims) == Tokens(u, delims)
      decreases |u|
    {
      assert u == b[..][start..start + |u|];
      assert u[0] == b[start];
      start, u := start + 1, u[1..];
      assert u == b[..][start..start + |u|];
    }
    assert u == b[..][start..start + |u|];
    assert u != [] ==> u[0] == b[start] && u[0] in u;
  }

  method EndToken(b: array<char>, start: nat, delims: string, ghost u: string)
    returns (next: nat, ghost rest: string)
    requires Holds(b[..], start, u) && NUL !in delims
    requires u != [] && u[0] !in delims
    modifies b
    ensures Tokens(u, delims) != []
    ensures Holds(b[..], start, Tokens(u, delims)[0])
    ensures Holds(b[..], next, rest) && |rest| < |u|
    ensures Tokens(rest, delims) == Tokens(u, delims)[1..]
  {
    var n: nat := TokenLength(b, start, delims, u);
    next, rest := EndString(b, start, u, n);
    FirstToken(u, delims, n);
  }

  /** Ends the string after n characters, and says where the rest of it stands. */
  method EndString(b: array<char>, start: nat, ghost u: string, n: nat) returns (next: nat, ghost rest: string)
    requires Holds(b[..], start, u) && 0 < n <= |u|
    modifies b
    ensures Holds(b[..], start, u[..n])
    ensures Holds(b[..], next, rest) && rest == if n == |u| then [] else u[n + 1..]
  {
    assert u == b[..][start..start + |u|];
    assert n < |u| ==> b[start + n] == u[n] && u[n] in u;
    if b[start + n] == NUL {
      next, rest := start + n, [];
      assert u[..n] == u;
    } else {
      next, rest := start + n + 1, u[n + 1..];
      CutAt(b, start, u, n);
    }
  }

  lemma FirstToken(u: string, delims: string, n: nat)
    requires u != [] && u[0] !in delims && n == Span(u, delims)
    ensures Tokens(u, delims) != [] && Tokens(u, delims)[0] == u[..n]
    ensures Tokens(u, delims)[1..] == Tokens(if n == |u| then [] else u[n + 1..], delims)
  {
    assert Tokens(u, delims) == [u[..n]] + Tokens(u[n..], delims);
    if n < |u| {
      assert u[n..][1..] == u[n + 1..];
    }
  }

  method TokenLength(b: array<char>, start: nat, delims: string, ghost u: string) returns (n: nat)
    requires Holds(b[..], start, u) && NUL !in delims
    requires u != [] && u[0] !in delims
    ensures n == Span(u, delims) && 0 < n
    ensures if n == |u| then b[start + n] == NUL else b[start + n] == u[n] && u[n] != NUL
  {
    assert u == b[..][start..start + |u|];
    n := 1;
    while b[start + n] != NUL && b[start + n] !in delims
      invariant 0 < n <= |u|
      invariant forall i :: 0 <= i < n ==> u[i] !in delims
      decreases |u| - n
    {
      assert u[n] == b[start + n];
      n := n + 1;
    }
    if n < |u| { assert u[n] == b[start + n] && u[n] in u; }
    SpanIs(u, delims, n);
  }

  /** Writing a NUL inside a string leaves two strings. */
  method CutAt(b: array<char>, start: nat, ghost u: string, n: nat)
    requires Holds(b[..], start, u) && n < |u|
    modifies b
    ensures Holds(b[..], start, u[..n]) && Holds(b[..], start + n + 1, u[n + 1..])
  {
    ghost var was := b[..];
    b[start + n] := NUL;
    assert b[..][start..start + n] == was[start..start + |u|][..n];
    assert b[..][start + n + 1..start + |u|] == was[start..start + |u|][n + 1..];
  }

  lemma {:induction false} SpanIs(s: string, delims: string, n: nat)
    requires n <= |s| && (forall i :: 0 <= i < n ==> s[i] !in delims)
    requires n < |s| ==> s[n] in delims
    ensures Span(s, delims) == n
  {
    if n > 0 {
      SpanIs(s[1..], delims, n - 1);
    }
  }

  /** Case folding of strcasecmp, and of strings.ToLower on ASCII names. */
  function LowerChar(c: char): char {
    if 'A' <= c <= 'Z' then ((c as int) + 32) as char else c
  }

  function Lower(s: string): (r: string)
    ensures |r| == |s| && forall i :: 0 <= i < |s| ==> r[i] == LowerChar(s[i])
  {
    seq(|s|, i requires 0 <= i < |s| => LowerChar(s[i]))
  }

  predicate EqualFold(s: string, t: string) { Lower(s) == Lower(t) }

  predicate IsUpper(c: char) { 'A' <= c <= 'Z' }

  lemma LowerOfLower(s: string)
    requires forall c :: c in s ==> !IsUpper(c)
    ensures Lower(s) == s
  {
    forall i | 0 <= i < |s| ensures Lower(s)[i] == s[i] {
      assert s[i] in s;
    }
  }

  /** Letter by letter: only the letters from A to Z change, to the ones 32 places further on. */
  lemma LowerByLetters(s: string, i: nat)
    requires i < |s|
    ensures 'A' <= s[i] <= 'Z' ==> Lower(s)[i] as int == s[i] as int + 32
    ensures !('A' <= s[i] <= 'Z') ==> Lower(s)[i] == s[i]
  {
  }

  predicate SameLetter(c: char, d: char) {
    c == d || ('A' <= c <= 'Z' && d as int == c as int + 32) || ('A' <= d <= 'Z' && c as int == d as int + 32)
  }

  lemma FoldByLetters(s: string, t: string)
    ensures EqualFold(s, t) <==> |s| == |t| && forall i :: 0 <= i < |s| ==> SameLetter(s[i], t[i])
  {
    if |s| == |t| {
      forall i | 0 <= i < |s| ensures Lower(s)[i] == Lower(t)[i] <==> SameLetter(s[i], t[i]) {
        LowerByLetters(s, i);
        LowerByLetters(t, i);
      }
    } else {
      assert |Lower(s)| != |Lower(t)|;
    }
  }

  /** The blanks of the C side. */
  predicate IsBlank(c: char) { c == ' ' || c == '\t' || c == '\r' || c == '\n' }

  lemma BlanksAre(c: char)
    ensures c in BLANKS <==> IsBlank(c)
  {
    assert BLANKS[0] == ' ' && BLANKS[1] == '\t' && BLANKS[2] == '\r' && BLANKS[3] == '\n';
  }

  /** trim drops the blanks at both ends, and nothing else. */
  lemma TrimDropsBlanks(s: string) returns (i: nat, j: nat)
    ensures i <= j <= |s| && Trim(s) == s[i..j]
    ensures forall k :: (0 <= k < i || j <= k < |s|) ==> IsBlank(s[k])
    ensures i < j ==> !IsBlank(s[i]) && !IsBlank(s[j - 1])
  {
    forall c ensures c in BLANKS <==> IsBlank(c) {
      BlanksAre(c);
    }
    i := TrimLeftDrops(s, BLANKS);
    var n := TrimRightDrops(s[i..], BLANKS);
    j := i + n;
    assert forall k :: j <= k < |s| ==> s[k] == s[i..][k - i];
    assert s[i..][..n] == s[i..j];
  }
}
