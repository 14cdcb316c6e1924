/** Joining and splitting host and port as Go's net package does, and stripHostPort of proxy.go. */
module HostPort {
  import opened Prelude

  datatype Parts = Parts(host: string, port: string)

  predicate Has(s: string, c: char) { c in s }

  predicate Bracketless(s: string) { !Has(s, '[') && !Has(s, ']') }

  function FirstIndex(s: string, c: char): (i: Option<nat>)
    ensures i.None? <==> !Has(s, c)
    ensures i.Some? ==> i.value < |s| && s[i.value] == c && forall k :: 0 <= k < i.value ==> s[k] != c
  {
    if s == "" then None
    else if s[0] == c then Some(0)
    else
      var r := FirstIndex(s[1..], c);
      if r.None? then None else Some(r.value + 1)
  }

  function LastIndex(s: string, c: char): (i: Option<nat>)
    ensures i.None? <==> !Has(s, c)
    ensures i.Some? ==> i.value < |s| && s[i.value] == c && forall k :: i.value < k < |s| ==> s[k] != c
  {
    if s == "" then None
    else if s[|s| - 1] == c then Some(|s| - 1)
    else LastIndex(s[..|s| - 1], c)
  }

  function JoinHostPort(host: string, port: string): string {
    if Has(host, ':') then "[" + host + "]:" + port else host + ":" + port
  }

  /** net.SplitHostPort; None stands for its errors. */
  function SplitHostPort(h: string): Option<Parts> {
    var i := LastIndex(h, ':');
    if i.None? then None
    else if h[0] == '[' then
      var end := FirstIndex(h, ']');
      if end.None? || end.value + 1 != i.value then None
      else if Has(h[1..], '[') || Has(h[end.value + 1..], ']') then None
      else Some(Parts(h[1..end.value], h[i.value + 1..]))
    else if Has(h[..i.value], ':') || Has(h, '[') || Has(h, ']') then None
    else Some(Parts(h[..i.value], h[i.value + 1..]))
  }

  function StripHostPort(h: string): string {
    var p := SplitHostPort(h);
    if p.None? then h else p.value.host
  }

  // ---- what splitting means ----

  /** The texts that stand for a host and a port. */
  ghost predicate Denotes(h: string, host: string, port: string) {
    && Bracketless(host) && Bracketless(port) && !Has(port, ':')
    && (h == "[" + host + "]:" + port || (h == host + ":" + port && !Has(host, ':')))
  }

  lemma LastIndexIs(s: string, c: char, i: nat)
    requires i < |s| && s[i] == c && forall k :: i < k < |s| ==> s[k] != c
    ensures LastIndex(s, c) == Some(i)
  {
  }

  lemma FirstIndexIs(s: string, c: char, i: nat)
    requires i < |s| && s[i] == c && forall k :: 0 <= k < i ==> s[k] != c
    ensures FirstIndex(s, c) == Some(i)
  {
  }

  lemma BracketedEnds(h: string, host: string, port: string)
    requires !Has(host, ']') && !Has(port, ':') && h == "[" + host + "]:" + port
    ensures FirstIndex(h, ']') == Some(|host| + 1) && LastIndex(h, ':') == Some(|host| + 2)
  {
    var n := |host|;
    forall k | n + 2 < k < |h| ensures h[k] != ':' { assert h[k] == port[k - n - 3]; }
    forall k | 0 <= k < n + 1 ensures h[k] != ']' { assert k > 0 ==> h[k] == host[k - 1]; }
    LastIndexIs(h, ':', n + 2);
    FirstIndexIs(h, ']', n + 1);
  }

  lemma BracketedParts(h: string, host: string, port: string)
    requires h == "[" + host + "]:" + port
    ensures h[0] == '[' && h[1..|host| + 1] == host && h[|host| + 3..] == port
    ensures h[1..] == host + "]:" + port && h[|host| + 2..] == ":" + port
  {
  }

  lemma BracketedSplits(host: string, port: string)
    requires Bracketless(host) && Bracketless(port) && !Has(port, ':')
    ensures SplitHostPort("[" + host + "]:" + port) == Some(Parts(host, port))
  {
    var h := "[" + host + "]:" + port;
    BracketedEnds(h, host, port);
    BracketedParts(h, host, port);
    assert !Has(h[1..], '[') && !Has(h[|host| + 2..], ']');
  }

  lemma PlainSplits(host: string, port: string)
    requires Bracketless(host) && Bracketless(port) && !Has(port, ':') && !Has(host, ':')
    ensures SplitHostPort(host + ":" + port) == Some(Parts(host, port))
  {
    var h := host + ":" + port;
    var n := |host|;
    assert h[..n] == host && h[n] == ':' && h[n + 1..] == port;
    forall k | n < k < |h| ensures h[k] != ':' { assert h[k] == port[k - n - 1]; }
    LastIndexIs(h, ':', n);
    if n > 0 {
      assert h[0] == host[0] && host[0] in host;
    } else {
      assert h[0] == ':';
    }
  }

  lemma AfterLast(h: string, c: char)
    requires LastIndex(h, c).Some?
    ensures !Has(h[LastIndex(h, c).value + 1..], c)
  {
  }

  lemma BracketedHost(h: string, i: nat)
    requires 2 <= i < |h| && FirstIndex(h, ']') == Some(i - 1) && !Has(h[1..], '[')
    ensures Bracketless(h[1..i - 1])
  {
    var host := h[1..i - 1];
    assert host == h[1..][..i - 2];
    SubHas(h[1..], 0, i - 2, '[');
    assert forall k :: 0 <= k < |host| ==> host[k] == h[k + 1];
  }

  lemma BracketedPort(h: string, i: nat)
    requires 2 <= i < |h| && !Has(h[1..], '[') && !Has(h[i..], ']')
    ensures Bracketless(h[i + 1..])
  {
    assert h[1..][i..] == h[i + 1..] && h[i..][1..] == h[i + 1..];
    SubHas(h[1..], i, |h| - 1, '[');
    SubHas(h[i..], 1, |h| - i, ']');
  }

  lemma BracketedDenotes(h: string, i: nat)
    requires 2 <= i < |h| && h[0] == '[' && h[i - 1] == ']' && h[i] == ':'
    requires FirstIndex(h, ']') == Some(i - 1) && !Has(h[1..], '[') && !Has(h[i..], ']') && !Has(h[i + 1..], ':')
    ensures Denotes(h, h[1..i - 1], h[i + 1..])
  {
    BracketedHost(h, i);
    BracketedPort(h, i);
    BracketedText(h, i);
  }

  lemma BracketedText(h: string, i: nat)
    requires 2 <= i < |h| && h[0] == '[' && h[i - 1] == ']' && h[i] == ':'
    ensures h == "[" + h[1..i - 1] + "]:" + h[i + 1..]
  {
  }

  lemma SubHas(s: string, i: nat, j: nat, c: char)
    requires i <= j <= |s| && !Has(s, c)
    ensures !Has(s[i..j], c)
  {
  }

  lemma SplitDenotes(h: string)
    requires SplitHostPort(h).Some?
    ensures var p := SplitHostPort(h).value; Denotes(h, p.host, p.port)
  {
    var i := LastIndex(h, ':').value;
    AfterLast(h, ':');
    if h[0] == '[' {
      BracketedDenotes(h, i);
    } else {
      assert h == h[..i] + ":" + h[i + 1..];
    }
  }

  /** Splitting finds exactly the host and port that a text denotes, and fails on all other texts. */
  lemma SplitsExactlyWhatIsDenoted(h: string, host: string, port: string)
    ensures SplitHostPort(h) == Some(Parts(host, port)) <==> Denotes(h, host, port)
  {
    if SplitHostPort(h).Some? {
      SplitDenotes(h);
    }
    if Denotes(h, host, port) {
      if h == "[" + host + "]:" + port {
        BracketedSplits(host, port);
      } else {
        PlainSplits(host, port);
      }
    }
  }

  /** Joining and splitting give host and port back exactly for hosts without brackets, with or without
      colons. */
  lemma SplitsBackExactlyWhenBracketless(host: string, port: string)
    requires Bracketless(port) && !Has(port, ':')
    ensures SplitHostPort(JoinHostPort(host, port)) == Some(Parts(host, port)) <==> Bracketless(host)
    ensures StripHostPort(JoinHostPort(host, port)) == host <==> Bracketless(host)
  {
    SplitsExactlyWhatIsDenoted(JoinHostPort(host, port), host, port);
    var h := JoinHostPort(host, port);
    if SplitHostPort(h).Some? {
      SplitDenotes(h);
    }
  }

  /** A bare host, with no colon or with several, is left alone. */
  lemma BareHostIsKept(h: string, i: nat, j: nat)
    requires !Has(h, ':') || (i < j < |h| && h[i] == h[j] == ':' && h[0] != '[')
    ensures StripHostPort(h) == h
  {
    if Has(h, ':') {
      var last := LastIndex(h, ':').value;
      assert i < last;
      assert h[..last][i] == ':';
    }
  }

  // ---- ports in decimal ----

  function Digit(n: nat): char
    requires n < 10
  {
    "0123456789"[n]
  }

  function Decimal(n: nat): (s: string)
    ensures s != "" && Bracketless(s) && !Has(s, ':')
  {
    if n < 10 then [Digit(n)] else Decimal(n / 10) + [Digit(n % 10)]
  }

  function Number(s: string): int {
    if s == "" then 0 else 10 * Number(s[..|s| - 1]) + (s[|s| - 1] as int - '0' as int)
  }

  lemma {:induction false} DecimalReadsBack(n: nat)
    ensures Number(Decimal(n)) == n
  {
    if n < 10 {
      assert Decimal(n)[..0] == "";
      assert Number("") == 0;
    } else {
      DecimalReadsBack(n / 10);
      assert Decimal(n)[..|Decimal(n)| - 1] == Decimal(n / 10);
    }
  }

  /** It is written in digits, without a zero in front. */
  lemma {:induction false} DecimalIsPlain(n: nat)
    ensures forall i :: 0 <= i < |Decimal(n)| ==> '0' <= Decimal(n)[i] <= '9'
    ensures Decimal(n)[0] == '0' <==> n == 0
  {
    if n >= 10 {
      DecimalIsPlain(n / 10);
      assert Decimal(n)[0] == Decimal(n / 10)[0];
    }
  }
}
