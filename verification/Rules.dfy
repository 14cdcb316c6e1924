/** rules.go: matching as a function of the rule list, and how edits of the list change outcomes. */
module Rules {
  import opened Prelude
  import opened CStrings

  datatype Rule = Rule(id: string, host: string, path: string, httpMethod: string, status: int, body: string,
                       contentType: string, action: string, rewriteJson: map<string, string>,
                       rewriteBody: string, script: string)

  /** What matching looks at. */
  datatype Query = Query(host: string, path: string, httpMethod: string)

  predicate EndsWithStar(p: string) { p != "" && p[|p| - 1] == '*' }

  predicate PathMatch(pat: string, path: string) {
    if EndsWithStar(pat) then pat[..|pat| - 1] <= path else pat == path
  }

  predicate HostOk(r: Rule, host: string) { r.host == "" || EqualFold(r.host, host) }

  predicate PathOk(pat: string, path: string) { pat == "" || pat == path || PathMatch(pat, path) }

  predicate MethodOk(r: Rule, m: string) { r.httpMethod == "" || EqualFold(r.httpMethod, m) }

  /** The three tests of matchRule. */
  predicate Matches(r: Rule, q: Query) {
    HostOk(r, q.host) && PathOk(r.path, q.path) && MethodOk(r, q.httpMethod)
  }

  predicate IsRewrite(r: Rule) { EqualFold(r.action, "rewrite") }

  /** The first matching rule. */
  function FirstMatch(rules: seq<Rule>, q: Query): (r: Option<Rule>)
    ensures r.Some? ==> r.value in rules && Matches(r.value, q)
    ensures r.None? ==> forall i :: 0 <= i < |rules| ==> !Matches(rules[i], q)
  {
    if rules == [] then None else if Matches(rules[0], q) then Some(rules[0]) else FirstMatch(rules[1..], q)
  }

  lemma {:induction false} FirstMatchAt(rules: seq<Rule>, q: Query, i: nat)
    requires i < |rules| && Matches(rules[i], q) && forall j :: 0 <= j < i ==> !Matches(rules[j], q)
    ensures FirstMatch(rules, q) == Some(rules[i])
  {
    if i > 0 {
      FirstMatchAt(rules[1..], q, i - 1);
    }
  }

  // ---- edits ----

  /** An order-preserving filter: the rules whose id is another one. */
  function Without(rules: seq<Rule>, id: string): (r: seq<Rule>)
    ensures |r| <= |rules|
    ensures forall x :: x in r <==> x in rules && x.id != id
  {
    if rules == [] then []
    else Without(rules[..|rules| - 1], id) + (if rules[|rules| - 1].id == id then [] else [rules[|rules| - 1]])
  }

  predicate HasId(rules: seq<Rule>, id: string) { exists i :: 0 <= i < |rules| && rules[i].id == id }

  /** The fields that Set and Add fill in. */
  function Filled(r: Rule, newId: string): Rule {
    r.(id := if r.id == "" then newId else r.id, action := if r.action == "" then "mock" else r.action)
  }

  ghost predicate Complete(rules: seq<Rule>) {
    forall i :: 0 <= i < |rules| ==> rules[i].id != "" && rules[i].action != ""
  }

  function FilledAll(rules: seq<Rule>, ids: seq<string>): (r: seq<Rule>)
    requires |ids| == |rules|
    ensures |r| == |rules| && forall i :: 0 <= i < |r| ==> r[i] == Filled(rules[i], ids[i])
  {
    seq(|rules|, i requires 0 <= i < |rules| => Filled(rules[i], ids[i]))
  }

  datatype Edit =
    SetRules(rules: seq<Rule>, ids: seq<string>) | AddRule(rule: Rule, id: string) | DeleteRule(id: string)

  /** newRuleID gives non-empty ids. */
  ghost predicate EditOk(e: Edit) {
    match e
    case SetRules(rules, ids) => |ids| == |rules| && forall i :: 0 <= i < |ids| ==> ids[i] != ""
    case AddRule(_, id) => id != ""
    case DeleteRule(_) => true
  }

  function ApplyEdit(rules: seq<Rule>, e: Edit): seq<Rule>
    requires e.SetRules? ==> |e.ids| == |e.rules|
  {
    match e
    case SetRules(rs, ids) => FilledAll(rs, ids)
    case AddRule(r, id) => rules + [Filled(r, id)]
    case DeleteRule(id) => Without(rules, id)
  }

  /** Every stored rule keeps a non-empty id and action, over any run of edits. */
  lemma {:induction false} StoredRulesAreComplete(edits: seq<Edit>, lists: seq<seq<Rule>>, i: nat)
    requires |lists| == |edits| + 1 && lists[0] == []
    requires forall k :: 0 <= k < |edits| ==> EditOk(edits[k]) && lists[k + 1] == ApplyEdit(lists[k], edits[k])
    requires i < |lists|
    ensures Complete(lists[i])
  {
    if i > 0 {
      StoredRulesAreComplete(edits, lists, i - 1);
      assert EditOk(edits[i - 1]);
      if edits[i - 1].DeleteRule? {
        forall k | 0 <= k < |lists[i]| ensures lists[i][k].id != "" && lists[i][k].action != "" {
          assert lists[i][k] in lists[i];
        }
      }
    }
  }

  // ---- what an edit leaves ----

  /** f is r as it is stored: with a new id if it had none, as a mock if it had no action, else as it was. */
  ghost predicate StoredAs(r: Rule, newId: string, f: Rule) {
    && f.id == (if r.id == "" then newId else r.id)
    && f.action == (if r.action == "" then "mock" else r.action)
    && f.host == r.host && f.path == r.path && f.httpMethod == r.httpMethod && f.status == r.status
    && f.body == r.body && f.contentType == r.contentType && f.rewriteJson == r.rewriteJson
    && f.rewriteBody == r.rewriteBody && f.script == r.script
  }

  /** Places in increasing order. */
  ghost predicate Increasing(at: seq<nat>) {
    forall a, b :: 0 <= a < b < |at| ==> at[a] < at[b]
  }

  /** l is what stands at these places, which are those with another id, in the same order. */
  ghost predicate Keeps(rules: seq<Rule>, id: string, l: seq<Rule>, at: seq<nat>) {
    && |at| == |l| && Increasing(at)
    && (forall k :: 0 <= k < |at| ==> at[k] < |rules| && l[k] == rules[at[k]])
    && (forall i :: 0 <= i < |rules| ==> (i in at <==> rules[i].id != id))
  }

  lemma KeepsOneMore(rules: seq<Rule>, id: string, l: seq<Rule>, at: seq<nat>)
    requires rules != [] && Keeps(rules[..|rules| - 1], id, l, at)
    ensures var last := rules[|rules| - 1];
            if last.id == id then Keeps(rules, id, l, at) else Keeps(rules, id, l + [last], at + [|rules| - 1])
  {
    var n := |rules| - 1;
    var init := rules[..n];
    assert forall i :: 0 <= i < n ==> init[i] == rules[i];
    assert n !in at;
    if rules[n].id != id {
      var more := at + [n];
      assert more[|at|] == n && forall k :: 0 <= k < |at| ==> more[k] == at[k];
      forall i | 0 <= i < |rules| ensures i in more <==> rules[i].id != id {
        assert i in more <==> i in at || i == n;
      }
    }
  }

  lemma {:induction false} WithoutKeepsOrder(rules: seq<Rule>, id: string) returns (at: seq<nat>)
    ensures Keeps(rules, id, Without(rules, id), at)
  {
    at := [];
    if rules != [] {
      var n := |rules| - 1;
      at := WithoutKeepsOrder(rules[..n], id);
      KeepsOneMore(rules, id, Without(rules[..n], id), at);
      if rules[n].id != id {
        at := at + [n];
      } else {
        assert Without(rules, id) == Without(rules[..n], id);
      }
    }
  }

  /** An edit stores what it was sent: a new list in its order, a rule behind the others, or all but one id. */
  lemma EditLeaves(rules: seq<Rule>, e: Edit)
    requires EditOk(e)
    ensures var l := ApplyEdit(rules, e);
            && (e.SetRules? ==> |l| == |e.rules| && forall i :: 0 <= i < |l| ==> StoredAs(e.rules[i], e.ids[i], l[i]))
            && (e.AddRule? ==> |l| == |rules| + 1 && l[..|rules|] == rules && StoredAs(e.rule, e.id, l[|rules|]))
            && (e.DeleteRule? ==> exists at :: Keeps(rules, e.id, l, at))
  {
    if e.DeleteRule? {
      var at := WithoutKeepsOrder(rules, e.id);
    }
  }

  /** A rewrite rule is one whose action is that word, in any case. */
  lemma RewriteInAnyCase(r: Rule)
    ensures IsRewrite(r) <==> |r.action| == 7 && forall i :: 0 <= i < 7 ==> SameLetter(r.action[i], "rewrite"[i])
  {
    FoldByLetters(r.action, "rewrite");
  }

  // ---- stability ----

  /** Appending a rule decides only requests that matched nothing before. */
  lemma {:induction false} AppendedRuleComesLast(rules: seq<Rule>, r: Rule, q: Query)
    ensures FirstMatch(rules + [r], q) ==
            if FirstMatch(rules, q).Some? then FirstMatch(rules, q)
            else if Matches(r, q) then Some(r) else None
  {
    if rules == [] {
      assert rules + [r] == [r] && [r][1..] == [];
    } else {
      assert (rules + [r])[1..] == rules[1..] + [r];
      AppendedRuleComesLast(rules[1..], r, q);
    }
  }

  lemma {:induction false} FirstMatchConcat(a: seq<Rule>, b: seq<Rule>, q: Query)
    ensures FirstMatch(a + b, q) == if FirstMatch(a, q).Some? then FirstMatch(a, q) else FirstMatch(b, q)
  {
    if a == [] {
      assert a + b == b;
    } else {
      assert (a + b)[1..] == a[1..] + b;
      FirstMatchConcat(a[1..], b, q);
    }
  }

  /** Deleting an id changes an outcome only if the winner has that id; then a later rule, or none, wins. */
  lemma {:induction false} DeletingOtherIdKeepsOutcome(rules: seq<Rule>, id: string, q: Query)
    ensures FirstMatch(rules, q).None? ==> FirstMatch(Without(rules, id), q).None?
    ensures FirstMatch(rules, q).Some? ==>
              (FirstMatch(Without(rules, id), q) == FirstMatch(rules, q) <==> FirstMatch(rules, q).value.id != id)
  {
    if rules != [] {
      var n := |rules| - 1;
      var init, last := rules[..n], rules[n];
      assert rules == init + [last];
      DeletingOtherIdKeepsOutcome(init, id, q);
      FirstMatchConcat(init, [last], q);
      assert [last][1..] == [];
      if last.id == id {
        assert Without(rules, id) == Without(init, id);
      } else {
        FirstMatchConcat(Without(init, id), [last], q);
      }
    }
  }

  // ---- covered rules ----

  predicate TextCovers(a: string, b: string) { a == "" || (b != "" && EqualFold(a, b)) }

  /** Path pattern p accepts every path that q accepts. */
  predicate PathCovers(p: string, q: string) {
    if p == "" then true
    else if q == "" then p == "*"
    else if EndsWithStar(q) then EndsWithStar(p) && p[..|p| - 1] <= q[..|q| - 1]
    else PathOk(p, q)
  }

  predicate Covers(a: Rule, b: Rule) {
    TextCovers(a.host, b.host) && PathCovers(a.path, b.path) && TextCovers(a.httpMethod, b.httpMethod)
  }

  lemma PathCoversSound(p: string, q: string, path: string)
    requires PathCovers(p, q) && PathOk(q, path)
    ensures PathOk(p, path)
  {
  }

  /** A path that q accepts and p does not. */
  lemma PathCoversComplete(p: string, q: string) returns (path: string)
    requires !PathCovers(p, q)
    ensures PathOk(q, path) && !PathOk(p, path)
  {
    if q == "" {
      path := if EndsWithStar(p) then "" else p + "x";
      assert EndsWithStar(p) && p != "*" ==> p[..|p| - 1] != "";
      assert |p + "x"| != |p|;
    } else if EndsWithStar(q) {
      var prefix := q[..|q| - 1];
      if EndsWithStar(p) {
        path := prefix;
      } else {
        path := if p == prefix then prefix + "x" else prefix;
        assert |prefix + "x"| != |prefix|;
      }
    } else {
      path := q;
    }
  }

  /** A text that b accepts and a does not. */
  lemma TextCoversComplete(a: string, b: string) returns (t: string)
    requires !TextCovers(a, b)
    ensures (b == "" || EqualFold(b, t)) && !EqualFold(a, t)
  {
    if b == "" {
      t := a + "x";
      assert |Lower(t)| == |a| + 1;
    } else {
      t := b;
    }
  }

  /** Covering, a condition on the two rules alone, is exactly the inclusion of what they match. */
  lemma CoversExactly(a: Rule, b: Rule)
    ensures Covers(a, b) <==> forall q :: Matches(b, q) ==> Matches(a, q)
  {
    if Covers(a, b) {
      forall q | Matches(b, q) ensures Matches(a, q) {
        PathCoversSound(a.path, b.path, q.path);
      }
    } else {
      var q := Query(b.host, "", b.httpMethod);
      if !TextCovers(a.host, b.host) {
        var h := TextCoversComplete(a.host, b.host);
        q := q.(host := h);
      } else if !TextCovers(a.httpMethod, b.httpMethod) {
        var m := TextCoversComplete(a.httpMethod, b.httpMethod);
        q := q.(httpMethod := m);
      }
      if !PathCovers(a.path, b.path) {
        var p := PathCoversComplete(a.path, b.path);
        q := q.(path := p);
      } else {
        q := q.(path := if EndsWithStar(b.path) then b.path[..|b.path| - 1] else b.path);
      }
      assert Matches(b, q) && !Matches(a, q);
    }
  }

  /** A rule covered by an earlier one never wins: without it every request has the same outcome. */
  lemma CoveredRuleIsIdle(rules: seq<Rule>, i: nat, j: nat, q: Query)
    requires i < j < |rules| && Covers(rules[i], rules[j])
    ensures FirstMatch(rules[..j] + rules[j + 1..], q) == FirstMatch(rules, q)
  {
    var a, r, b := rules[..j], rules[j], rules[j + 1..];
    assert rules == a + ([r] + b);
    FirstMatchConcat(a, [r] + b, q);
    FirstMatchConcat(a, b, q);
    FirstMatchConcat([r], b, q);
    CoversExactly(rules[i], r);
    if Matches(r, q) {
      assert a[i] == rules[i];
    }
  }
}
