/** Lines that are longer than one fgets chunk, with any text in them: which of them set something on the
    C side that their key does not name. */
module PolicyTails {
  import opened Prelude
  import opened CStrings
  import opened PolicyFile
  import opened SslKit
  import opened PolicyAgreement

  /** The chunks that fgets makes of the rest of a line, newline included. */
  function ChunksOf(tail: string): seq<string>
    decreases |tail|
  {
    if |tail| < CHUNK then [tail + "\n"] else [tail[..CHUNK]] + ChunksOf(tail[CHUNK..])
  }

  /** A chunk that is no comment and names a setting in front of its first '='. */
  predicate Sets(c: string) {
    var l := CStr(c);
    var eq := IndexOf(l, '=');
    eq < |l| && l[0] != '#' && l[0] != ';' && SettingOf(Trim(l[..eq])).Some?
  }

  function Through(p: Policy, chunks: seq<string>): Policy
    decreases |chunks|
  {
    if chunks == [] then p else Through(ApplyAll(p, ParseChunk(chunks[0])), chunks[1..])
  }

  lemma OneChunk(p: Policy, c: string)
    ensures !Sets(c) ==> ApplyAll(p, ParseChunk(c)) == p
  {
    var kvs := ParseChunk(c);
    if kvs != [] {
      assert kvs[1..] == [];
      assert ApplyAll(p, kvs) == ApplyKv(p, kvs[0]);
    }
  }

  lemma {:induction false} QuietChunks(p: Policy, chunks: seq<string>)
    requires QuietAll(chunks)
    ensures Through(p, chunks) == p
    decreases |chunks|
  {
    if chunks != [] {
      OneChunk(p, chunks[0]);
      QuietChunks(p, chunks[1..]);
    }
  }

  ghost predicate QuietAll(chunks: seq<string>) {
    forall i :: 0 <= i < |chunks| ==> !Sets(chunks[i])
  }

  /** The setting that a chunk names, and the value it gets. */
  lemma LoudChunk(c: string) returns (s: Setting, v: string)
    requires Sets(c)
    ensures forall p: Policy :: ApplyAll(p, ParseChunk(c)).Get(s) == v
  {
    var kv := ParseChunk(c)[0];
    s := SettingOf(kv.key).value;
    v := Cut(kv.val, Size(s));
    forall p: Policy ensures ApplyAll(p, ParseChunk(c)).Get(s) == v {
      assert ParseChunk(c)[1..] == [];
      assert ApplyAll(p, ParseChunk(c)) == ApplyKv(p, kv);
    }
  }

  /** Chunks of which one names a setting give that or another setting a value of their own, whatever it
      was before. */
  lemma {:induction false} LoudChunksDecide(chunks: seq<string>) returns (s: Setting, v: string)
    requires !QuietAll(chunks)
    ensures forall p: Policy :: Through(p, chunks).Get(s) == v
    decreases |chunks|
  {
    var c, more := chunks[0], chunks[1..];
    if QuietAll(more) {
      QuietCons(chunks);
      s, v := LoudChunk(c);
      forall p: Policy ensures Through(p, chunks).Get(s) == v {
        QuietChunks(ApplyAll(p, ParseChunk(c)), more);
      }
    } else {
      s, v := LoudChunksDecide(more);
      forall p: Policy ensures Through(p, chunks).Get(s) == v {
        assert Through(p, chunks) == Through(ApplyAll(p, ParseChunk(c)), more);
      }
    }
  }

  lemma QuietCons(chunks: seq<string>)
    requires chunks != []
    ensures QuietAll(chunks) <==> !Sets(chunks[0]) && QuietAll(chunks[1..])
  {
    assert chunks == [chunks[0]] + chunks[1..];
    if !Sets(chunks[0]) && QuietAll(chunks[1..]) {
      forall i | 0 <= i < |chunks| ensures !Sets(chunks[i]) {
        if i > 0 { assert chunks[i] == chunks[1..][i - 1]; }
      }
    }
  }

  /** A policy that the ten buffers can hold. */
  ghost predicate Held(p: Policy) {
    forall s: Setting :: s in p.values && |p.values[s]| < Size(s)
  }

  /** The defaults, with another value than v at s. */
  lemma OtherPolicy(s: Setting, v: string) returns (p: Policy)
    ensures Held(p) && p.Get(s) != v
  {
    var x := if v == "" then "x" else "";
    p := Policy(Defaults().values[s := x]);
    forall t: Setting ensures t in p.values && |p.values[t]| < Size(t) {
      DefaultFits(t);
      assert Defaults().Get(t) == Default(t);
    }
  }

  lemma SplitTail(tail: string, rest: string)
    requires '\n' !in tail
    ensures var f := tail + "\n" + rest;
            var n := ChunkLen(f, CHUNK);
            if |tail| < CHUNK then f[..n] == tail + "\n" && f[n..] == rest
            else f[..n] == tail[..CHUNK] && f[n..] == tail[CHUNK..] + "\n" + rest
  {
    ChunkInLine(tail, rest, CHUNK);
    var f := tail + "\n" + rest;
    if |tail| < CHUNK {
      assert f == (tail + "\n") + rest;
    } else {
      assert f == tail[..CHUNK] + (tail[CHUNK..] + "\n" + rest);
    }
  }

  lemma OneChunkThen(p: Policy, f: string)
    requires f != ""
    ensures var n := ChunkLen(f, CHUNK);
            ApplyAll(p, Pairs(f)) == ApplyAll(ApplyAll(p, ParseChunk(f[..n])), Pairs(f[n..]))
  {
    var n := ChunkLen(f, CHUNK);
    ApplyAllAppend(p, ParseChunk(f[..n]), Pairs(f[n..]));
  }

  /** Reading the rest of a line is going through its chunks. */
  lemma {:induction false} TailGoesThrough(p: Policy, tail: string, rest: string)
    requires '\n' !in tail
    ensures ApplyAll(p, Pairs(tail + "\n" + rest)) == ApplyAll(Through(p, ChunksOf(tail)), Pairs(rest))
    decreases |tail|
  {
    SplitTail(tail, rest);
    OneChunkThen(p, tail + "\n" + rest);
    if |tail| < CHUNK {
      ThroughOne(p, tail + "\n", []);
    } else {
      ThroughOne(p, tail[..CHUNK], ChunksOf(tail[CHUNK..]));
      TailGoesThrough(ApplyAll(p, ParseChunk(tail[..CHUNK])), tail[CHUNK..], rest);
    }
  }

  lemma ThroughOne(p: Policy, c: string, more: seq<string>)
    ensures Through(p, [c] + more) == Through(ApplyAll(p, ParseChunk(c)), more)
  {
    assert ([c] + more)[1..] == more;
  }

  ghost predicate Quiet(tail: string) { QuietAll(ChunksOf(tail)) }

  // ---- the first chunk ----

  lemma {:induction false} CStrBehind(k: string, v: string)
    requires NUL !in k
    ensures CStr(k + v) == k + CStr(v)
    decreases |k|
  {
    if k == "" {
      assert k + v == v;
    } else {
      assert (k + v)[1..] == k[1..] + v;
      CStrBehind(k[1..], v);
    }
  }

  lemma PlainKeyHasNoNul(key: string)
    requires PlainKey(key)
    ensures NUL !in key && '=' !in key && Trim(key) == key
  {
    TrimOfSolid(key, BLANKS);
  }

  /** A chunk that starts with a key and '=' sets that key and nothing else, whatever follows. */
  lemma KeyChunkNames(p: Policy, key: string, v: string)
    requires PlainKey(key)
    ensures SettingOf(key) == None ==> ApplyAll(p, ParseChunk(key + "=" + v)) == p
    ensures SettingOf(key).Some? ==> Sets(key + "=" + v)
  {
    PlainKeyHasNoNul(key);
    var c := key + "=" + v;
    CStrBehind(key + "=", v);
    var l := key + ['='] + CStr(v);
    assert CStr(c) == l;
    IndexOfSplit(key, '=', CStr(v));
    assert l[..|key|] == key && l[0] == key[0];
    OneChunk(p, c);
  }

  lemma LineInParts(key: string, value: string, rest: string)
    requires PlainKey(key) && '\n' !in value
    ensures var f := Line(ConfLine(key, value)) + rest;
            var n := ChunkLen(f, CHUNK);
            if |key| + 1 + |value| < CHUNK then f[..n] == key + "=" + (value + "\n") && f[n..] == rest
            else f[..n] == key + "=" + value[..CHUNK - 1 - |key|] && f[n..] == value[CHUNK - 1 - |key|..] + "\n" + rest
  {
    var line := key + "=" + value;
    assert '\n' == BLANKS[3];
    assert '\n' !in line;
    assert Line(ConfLine(key, value)) + rest == line + "\n" + rest;
    SplitTail(line, rest);
    if |line| >= CHUNK {
      assert line[..CHUNK] == key + "=" + value[..CHUNK - 1 - |key|];
      assert line[CHUNK..] == value[CHUNK - 1 - |key|..];
    } else {
      assert line + "\n" == key + "=" + (value + "\n");
    }
  }

  /** What a line under an unknown key does: its continuation chunks, if it has any. */
  lemma UnknownLineGoesThrough(p: Policy, key: string, value: string, rest: string)
    requires PlainKey(key) && SettingOf(key) == None && '\n' !in value
    ensures ApplyAll(p, Pairs(Line(ConfLine(key, value)) + rest)) ==
            ApplyAll(if |key| + 1 + |value| < CHUNK then p
                     else Through(p, ChunksOf(value[CHUNK - 1 - |key|..])), Pairs(rest))
  {
    LineInParts(key, value, rest);
    OneChunkThen(p, Line(ConfLine(key, value)) + rest);
    if |key| + 1 + |value| < CHUNK {
      KeyChunkNames(p, key, value + "\n");
    } else {
      var tail := value[CHUNK - 1 - |key|..];
      KeyChunkNames(p, key, value[..CHUNK - 1 - |key|]);
      TailGoesThrough(p, tail, rest);
    }
  }

  /** Reading the line in front of any rest is reading the rest, for every policy that the buffers hold. */
  ghost predicate Ignored(key: string, value: string) {
    forall p, rest :: Held(p) ==>
      ApplyAll(p, Pairs(Line(ConfLine(key, value)) + rest)) == ApplyAll(p, Pairs(rest))
  }

  /** The by-host lines, whose keys C does not know, leave every setting alone in every file if and only if
      they fit one chunk or none of their continuation chunks names a setting. */
  lemma UnknownLineIsIgnoredExactlyWhenQuiet(key: string, value: string)
    requires PlainKey(key) && SettingOf(key) == None && '\n' !in value
    ensures Ignored(key, value) <==> |key| + 1 + |value| < CHUNK || Quiet(value[CHUNK - 1 - |key|..])
  {
    if |key| + 1 + |value| < CHUNK || Quiet(value[CHUNK - 1 - |key|..]) {
      forall p: Policy, rest: string | Held(p)
        ensures ApplyAll(p, Pairs(Line(ConfLine(key, value)) + rest)) == ApplyAll(p, Pairs(rest))
      {
        UnknownLineGoesThrough(p, key, value, rest);
        if |key| + 1 + |value| >= CHUNK {
          QuietChunks(p, ChunksOf(value[CHUNK - 1 - |key|..]));
        }
      }
    } else {
      LoudLineShows(key, value);
    }
  }

  lemma LoudLineShows(key: string, value: string)
    requires PlainKey(key) && SettingOf(key) == None && '\n' !in value
    requires |key| + 1 + |value| >= CHUNK && !Quiet(value[CHUNK - 1 - |key|..])
    ensures !Ignored(key, value)
  {
    var chunks := ChunksOf(value[CHUNK - 1 - |key|..]);
    var s, v := LoudChunksDecide(chunks);
    var p := OtherPolicy(s, v);
    UnknownLineGoesThrough(p, key, value, "");
    assert Pairs("") == [];
    assert ApplyAll(Through(p, chunks), []) == Through(p, chunks);
    assert ApplyAll(p, Pairs("")) == p;
    assert ApplyAll(p, Pairs(Line(ConfLine(key, value)) + "")).Get(s) == v;
  }

  /** Both by-host keys are of that kind. */
  lemma ByHostKeysAreUnknown()
    ensures PlainKey("SKYTAP_SSL_PIN_BY_HOST") && SettingOf("SKYTAP_SSL_PIN_BY_HOST") == None
    ensures PlainKey("SKYTAP_SSL_VERIFY_BY_HOST") && SettingOf("SKYTAP_SSL_VERIFY_BY_HOST") == None
  {
    ByHostKeysArePlain();
  }

  /** The name of one of the three list settings and '=' at a chunk boundary make such a chunk. */
  lemma NameAtBoundaryIsNotQuiet(s: Setting, v: string)
    requires s in {KitHosts, ImpersonateHosts, Impersonate} && |Name(s)| + 1 + |v| < CHUNK
    ensures !Quiet(Name(s) + "=" + v)
  {
    ListKeysArePlain();
    NamesAreKnown(s);
    KeyChunkNames(Policy(map[]), Name(s), v + "\n");
    var c := Name(s) + "=" + v;
    assert c + "\n" == Name(s) + "=" + (v + "\n");
    assert ChunksOf(c)[0] == c + "\n";
  }
}
