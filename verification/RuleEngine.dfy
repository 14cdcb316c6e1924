/** The rule engine of rules.go over its backing array: Delete filters in place, All and matchRule hand
    out copies. */
module RuleEngine {
  import opened Prelude
  import opened CStrings
  import opened Rules
  import opened Rewrite

  const NO_RULE: Rule := Rule("", "", "", "", 0, "", "", "", map[], "", "")

  class Engine {
    /** The slice e.rules: its backing array (capacity arr.Length) and its length. */
    var arr: array<Rule>
    var len: nat

    ghost predicate Valid()
      reads this
    {
      len <= arr.Length
    }

    ghost function Contents(): seq<Rule>
      requires Valid()
      reads this, arr
    {
      arr[..len]
    }

    constructor ()
      ensures Valid() && Contents() == [] && fresh(arr)
    {
      arr := new Rule[0];
      len := 0;
    }

    method Set(rules: seq<Rule>, ids: seq<string>)
      requires Valid() && EditOk(SetRules(rules, ids))
      modifies this
      ensures Valid() && fresh(arr) && Contents() == ApplyEdit(old(Contents()), SetRules(rules, ids))
    {
      var out := new Rule[|rules|](_ => NO_RULE);
      for i := 0 to |rules|
        invariant forall k :: 0 <= k < i ==> out[k] == Filled(rules[k], ids[k])
      {
        var r := rules[i];
        if r.id == "" { r := r.(id := ids[i]); }
        if r.action == "" { r := r.(action := "mock"); }
        out[i] := r;
      }
      arr, len := out, |rules|;
    }

    /** append: in place while there is capacity, else into a larger array. */
    method Add(rule: Rule, id: string) returns (stored: Rule)
      requires Valid() && id != ""
      modifies this, arr
      ensures Valid() && (arr == old(arr) || fresh(arr))
      ensures Contents() == ApplyEdit(old(Contents()), AddRule(rule, id))
      ensures stored == Filled(rule, id)
    {
      stored := rule;
      if stored.id == "" { stored := stored.(id := id); }
      if stored.action == "" { stored := stored.(action := "mock"); }
      if len == arr.Length {
        var bigger := new Rule[2 * len + 1](_ => NO_RULE);
        forall i | 0 <= i < len {
          bigger[i] := arr[i];
        }
        arr := bigger;
      }
      arr[len] := stored;
      len := len + 1;
    }

    /** Filters in place: writes into the array that the loop is still reading, always behind it. */
    method Delete(id: string) returns (ok: bool)
      requires Valid()
      modifies this, arr
      ensures Valid() && arr == old(arr)
      ensures Contents() == Without(old(Contents()), id)
      ensures ok <==> HasId(old(Contents()), id)
    {
      var kept: nat;
      ok, kept := FilterInPlace(arr, len, id);
      assert arr[..kept] == arr[..len][..kept];
      len := kept;
    }

    method All() returns (out: array<Rule>)
      requires Valid()
      ensures fresh(out) && out[..] == Contents()
    {
      out := new Rule[len](_ => NO_RULE);
      forall i | 0 <= i < len {
        out[i] := arr[i];
      }
    }

    /** matchRule: copies the list under the lock, then scans the copy. */
    method MatchRule(q: Query) returns (r: Option<Rule>)
      requires Valid()
      ensures r == FirstMatch(Contents(), q)
    {
      var rules := All();
      for i := 0 to rules.Length
        invariant rules[..] == Contents()
        invariant forall k :: 0 <= k < i ==> !Matches(rules[k], q)
      {
        var x := rules[i];
        if x.host != "" && !EqualFold(x.host, q.host) { continue; }
        if x.path != "" && x.path != q.path && !PathMatch(x.path, q.path) { continue; }
        if x.httpMethod != "" && !EqualFold(x.httpMethod, q.httpMethod) { continue; }
        FirstMatchAt(rules[..], q, i);
        return Some(x);
      }
      r := None;
      assert forall k :: 0 <= k < |rules[..]| ==> !Matches(rules[..][k], q);
    }

    /** The response of the first matching rule, unless that is a rewrite. */
    method Match(host: string, look: Look, sc: Scripts) returns (resp: Option<Response>)
      requires Valid()
      ensures var r := FirstMatch(Contents(), Query(host, look.path, look.httpMethod));
              resp == if r.None? || IsRewrite(r.value) then None else Some(Render(r.value, look, sc))
    {
      var r := MatchRule(QueryOf(host, look));
      if r.None? || IsRewrite(r.value) { return None; }
      resp := Some(Render(r.value, look, sc));
    }
  }

  /** Delete has looked at i rules of the list `was` and kept the first `kept` places for the others. */
  ghost predicate Filtering(now: seq<Rule>, was: seq<Rule>, i: nat, kept: nat, id: string, ok: bool) {
    && kept <= i <= |now| == |was|
    && now[i..] == was[i..]
    && now[..kept] == Without(was[..i], id)
    && (ok <==> HasId(was[..i], id))
  }

  lemma OneMore(was: seq<Rule>, i: nat, id: string)
    requires i < |was|
    ensures Without(was[..i + 1], id) == Without(was[..i], id) + if was[i].id == id then [] else [was[i]]
  {
    assert was[..i + 1][..i] == was[..i];
  }

  lemma DropRule(now: seq<Rule>, was: seq<Rule>, i: nat, kept: nat, id: string, ok: bool)
    requires Filtering(now, was, i, kept, id, ok) && i < |now| && now[i].id == id
    ensures Filtering(now, was, i + 1, kept, id, true)
  {
    assert now[i] == now[i..][0] == was[i];
    OneMore(was, i, id);
    HasIdStep(was, i, id);
    assert now[i + 1..] == now[i..][1..] == was[i..][1..];
  }

  lemma KeepRule(now: seq<Rule>, was: seq<Rule>, i: nat, kept: nat, id: string, ok: bool)
    requires Filtering(now, was, i, kept, id, ok) && i < |now| && now[i].id != id
    ensures Filtering(now[kept := now[i]], was, i + 1, kept + 1, id, ok)
  {
    assert now[i] == now[i..][0] == was[i];
    OneMore(was, i, id);
    HasIdStep(was, i, id);
    SetSlices(now, kept, i, now[i]);
    assert now[i + 1..] == now[i..][1..] == was[i..][1..];
  }

  lemma SetSlices(now: seq<Rule>, kept: nat, i: nat, r: Rule)
    requires kept <= i < |now|
    ensures now[kept := r][..kept + 1] == now[..kept] + [r] && now[kept := r][i + 1..] == now[i + 1..]
  {
  }

  lemma AllFiltered(now: seq<Rule>, was: seq<Rule>, kept: nat, id: string, ok: bool)
    requires Filtering(now, was, |was|, kept, id, ok)
    ensures now[..kept] == Without(was, id) && (ok <==> HasId(was, id))
  {
    assert was[..|was|] == was;
  }

  lemma NothingFiltered(was: seq<Rule>, id: string)
    ensures Filtering(was, was, 0, 0, id, false)
  {
  }

  /** The loop of Delete: the places behind i still hold the old rules while the places in front of
      `kept` are overwritten. */
  method FilterInPlace(a: array<Rule>, n: nat, id: string) returns (ok: bool, kept: nat)
    requires n <= a.Length
    modifies a
    ensures kept <= n && a[..n][..kept] == Without(old(a[..n]), id)
    ensures ok <==> HasId(old(a[..n]), id)
  {
    ghost var was := a[..n];
    kept, ok := 0, false;
    NothingFiltered(was, id);
    for i := 0 to n
      invariant Filtering(a[..n], was, i, kept, id, ok)
    {
      ok, kept := FilterOne(a, n, i, kept, id, ok, was);
    }
    AllFiltered(a[..n], was, kept, id, ok);
  }

  /** One pass of that loop. */
  method FilterOne(a: array<Rule>, n: nat, i: nat, kept: nat, id: string, ok: bool, ghost was: seq<Rule>)
    returns (ok': bool, kept': nat)
    requires i < n <= a.Length && Filtering(a[..n], was, i, kept, id, ok)
    modifies a
    ensures Filtering(a[..n], was, i + 1, kept', id, ok')
  {
    var r := a[i];
    assert r == a[..n][i];
    if r.id == id {
      DropRule(a[..n], was, i, kept, id, ok);
      ok', kept' := true, kept;
    } else {
      KeepRule(a[..n], was, i, kept, id, ok);
      Append(a, n, kept, r);
      ok', kept' := ok, kept + 1;
    }
  }

  /** Puts r behind the first `kept` places of the array. */
  method Append(a: array<Rule>, n: nat, kept: nat, r: Rule)
    requires kept < n <= a.Length
    modifies a
    ensures a[..n] == old(a[..n])[kept := r]
  {
    a[kept] := r;
  }

  lemma HasIdStep(rules: seq<Rule>, i: nat, id: string)
    requires i < |rules|
    ensures HasId(rules[..i + 1], id) <==> HasId(rules[..i], id) || rules[i].id == id
  {
    if HasId(rules[..i], id) {
      var k :| 0 <= k < i && rules[..i][k].id == id;
      assert rules[..i + 1][k].id == id;
    }
    if rules[i].id == id {
      assert rules[..i + 1][i].id == id;
    }
  }

  /** Any run of edits: the engine ends with the edited list, and a list handed out before it is never
      written again. */
  method EditRun(e: Engine, edits: seq<Edit>, handedOut: array<Rule>) returns (ghost lists: seq<seq<Rule>>)
    requires e.Valid() && handedOut != e.arr
    requires forall k :: 0 <= k < |edits| ==> EditOk(edits[k])
    modifies e, e.arr
    ensures handedOut[..] == old(handedOut[..])
    ensures e.Valid() && |lists| == |edits| + 1 && lists[0] == old(e.Contents()) && lists[|edits|] == e.Contents()
    ensures forall k :: 0 <= k < |edits| ==> EditOk(edits[k]) && lists[k + 1] == ApplyEdit(lists[k], edits[k])
  {
    lists := [e.Contents()];
    for i := 0 to |edits|
      invariant e.Valid() && (e.arr == old(e.arr) || fresh(e.arr))
      invariant handedOut[..] == old(handedOut[..])
      invariant |lists| == i + 1 && lists[0] == old(e.Contents()) && lists[i] == e.Contents()
      invariant forall k :: 0 <= k < i ==> EditOk(edits[k]) && lists[k + 1] == ApplyEdit(lists[k], edits[k])
    {
      match edits[i] {
        case SetRules(rules, ids) => e.Set(rules, ids);
        case AddRule(rule, id) => var _ := e.Add(rule, id);
        case DeleteRule(id) => var _ := e.Delete(id);
      }
      lists := lists + [e.Contents()];
    }
  }
}
