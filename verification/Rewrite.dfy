/** rules.go: how a rule's text becomes a body, and how a rewrite rule changes a request in place.  A
    character stands for one byte.  The script language, the templates and the JSON codec are parameters. */
module Rewrite {
  import opened Prelude
  import opened CStrings
  import opened GoStrings
  import opened Markers
  import opened Replacer
  import opened Rules

  /** What scripts and templates can see of a request; no rewrite changes it. */
  datatype Look = Look(path: string, host: string, httpMethod: string, query: map<string, string>)

  /** What matching sees of it; the host is the one of the connection. */
  function QueryOf(host: string, look: Look): Query { Query(host, look.path, look.httpMethod) }

  /** Expressions, whole programs and templates; None when one fails. */
  datatype Scripts = Scripts(expr: (string, Look) -> Option<string>,
                             program: (string, Look) -> Option<string>,
                             template: (string, Look) -> Option<string>)

  // ---- evaluation ----

  predicate HasBraces(s: string) { exists i: nat | i <= |s| :: At(s, i, "{{") }

  function ApplyTpl(s: string, look: Look, sc: Scripts): string {
    if s == "" then s
    else
      var t := Pass(s, 0);
      if !HasBraces(t) then t
      else
        var out := sc.template(t, look);
        if out.Some? then out.value else t
  }

  function EvalBody(s: string, whole: bool, look: Look, sc: Scripts): string {
    if whole then
      var out := sc.program(s, look);
      ApplyTpl(if out.Some? then out.value else s, look, sc)
    else
      ApplyTpl(Replace(s, 0, x => sc.expr(x, look)), look, sc)
  }

  function EvalJsonValue(v: string, look: Look, sc: Scripts): string {
    if "=" <= v then
      var out := sc.expr(TrimSpace(v[1..]), look);
      if out.Some? then out.value else v
    else EvalBody(v, false, look, sc)
  }

  lemma StartsWithBraces(s: string, i: nat, t: string)
    requires At(s, i, t) && "{{" <= t
    ensures HasBraces(s)
  {
    assert s[i..i + 2] == s[i..i + |t|][..2];
    assert At(s, i, "{{");
  }

  lemma NoBracesNoMarks(s: string, i: nat)
    requires i <= |s| && !HasBraces(s)
    ensures FirstMark(s, i).None?
  {
    if FirstMark(s, i).Some? {
      FirstIsScanned(s, i);
      StartsWithBraces(s, FirstMark(s, i).value.start, OPEN);
    }
  }

  lemma NoBracesClean(s: string)
    requires !HasBraces(s)
    ensures Clean(s)
  {
    forall i: nat ensures PairAt(s, i).None? {
      if PairAt(s, i).Some? {
        var p := PairAt(s, i).value;
        PairShape(p);
        PairText(s, i);
        StartsWithBraces(s, i, p.short);
      }
    }
  }

  /** A text without double braces is used as it is, whatever the scripts do. */
  lemma PlainTextIsKept(s: string, look: Look, sc: Scripts)
    requires !HasBraces(s)
    ensures EvalBody(s, false, look, sc) == s
  {
    NoBracesNoMarks(s, 0);
    NoBracesClean(s);
    PassFixes(s);
  }

  // ---- what evaluation gives, told by markers, occurrences and the outcomes of the library calls ----

  /** Double braces stay through the pass, whatever it expands. */
  lemma {:induction false} BracesStay(s: string, i: nat, j: nat)
    requires i <= j <= |s| && At(s, j, "{{")
    ensures HasBraces(Pass(s, i))
    decreases |s| - i
  {
    if PairAt(s, i).Some? {
      PairText(s, i);
      PairShape(PairAt(s, i).value);
      ActionHasBraces(PairAt(s, i).value.action, Pass(s, i + 8));
    } else if i < j {
      BracesStay(s, i + 1, j);
      BracesBehind(s[i], Pass(s, i + 1));
    } else {
      assert s[i..i + 2][0] == s[i] == '{' && s[i..i + 2][1] == s[i + 1] == '{';
      PassBegins(s, i + 1);
      assert At(Pass(s, i), 0, "{{");
    }
  }

  lemma ActionHasBraces(action: string, rest: string)
    requires "{{" <= action
    ensures HasBraces(action + rest)
  {
    assert At(action + rest, 0, "{{");
  }

  lemma BracesBehind(c: char, t: string)
    requires HasBraces(t)
    ensures HasBraces([c] + t)
  {
    var k: nat :| k <= |t| && At(t, k, "{{");
    assert ([c] + t)[k + 1..k + 3] == t[k..k + 2];
    assert At([c] + t, k + 1, "{{");
  }

  lemma PassBegins(s: string, i: nat)
    requires i < |s| && s[i] == '{'
    ensures Pass(s, i) != "" && Pass(s, i)[0] == '{'
  {
    if PairAt(s, i).Some? {
      PairText(s, i);
      PairShape(PairAt(s, i).value);
    }
  }

  /** What becomes of a text after its scripts: without double braces it is used as it is; with them, its dotted
      form goes to the template engine, and is used itself if that fails. */
  ghost predicate Finished(s: string, look: Look, sc: Scripts, out: string) {
    var dotted := Dotted(s, Occurrences(s), 0);
    && (!HasBraces(s) ==> out == s)
    && (HasBraces(s) && sc.template(dotted, look).Some? ==> out == sc.template(dotted, look).value)
    && (HasBraces(s) && sc.template(dotted, look).None? ==> out == dotted)
  }

  lemma TemplateFinishes(s: string, look: Look, sc: Scripts)
    ensures Finished(s, look, sc, ApplyTpl(s, look, sc))
  {
    PassIsDotted(s);
    if HasBraces(s) {
      var j: nat :| j <= |s| && At(s, j, "{{");
      BracesStay(s, 0, j);
    } else {
      NoBracesClean(s);
      PassFixes(s);
    }
  }

  /** A whole program is replaced by what it returns, if it succeeds; other text has each of its markers
      replaced by the value of its expression, if that succeeds. */
  ghost predicate Evaluated(s: string, whole: bool, look: Look, sc: Scripts, out: string) {
    && (whole && sc.program(s, look).Some? ==> Finished(sc.program(s, look).value, look, sc, out))
    && (whole && sc.program(s, look).None? ==> Finished(s, look, sc, out))
    && (!whole ==> Finished(Output(Pieces(s, 0), x => sc.expr(x, look)), look, sc, out))
  }

  lemma BodyIsEvaluated(s: string, whole: bool, look: Look, sc: Scripts)
    ensures Evaluated(s, whole, look, sc, EvalBody(s, whole, look, sc))
  {
    if whole {
      var out := sc.program(s, look);
      TemplateFinishes(if out.Some? then out.value else s, look, sc);
    } else {
      ReplaceIsOutput(s, 0, x => sc.expr(x, look));
      TemplateFinishes(Replace(s, 0, x => sc.expr(x, look)), look, sc);
    }
  }

  /** A JSON value with '=' in front is one expression, and kept as it is if that fails. */
  ghost predicate JsonEvaluated(v: string, look: Look, sc: Scripts, out: string) {
    && (v != "" && v[0] == '=' && sc.expr(TrimSpace(v[1..]), look).Some? ==>
          out == sc.expr(TrimSpace(v[1..]), look).value)
    && (v != "" && v[0] == '=' && sc.expr(TrimSpace(v[1..]), look).None? ==> out == v)
    && ((v == "" || v[0] != '=') ==> Evaluated(v, false, look, sc, out))
  }

  lemma JsonValueIsEvaluated(v: string, look: Look, sc: Scripts)
    ensures JsonEvaluated(v, look, sc, EvalJsonValue(v, look, sc))
  {
    BodyIsEvaluated(v, false, look, sc);
  }

  /** A marker whose expression is worth 2. */
  lemma MarkerIsEvaluated(look: Look, sc: Scripts)
    requires sc.expr("1+1", look) == Some("2")
    ensures EvalBody("{{script: 1+1}}", false, look, sc) == "2"
  {
    var s := "{{script: 1+1}}";
    var eval := x => sc.expr(x, look);
    PiecesOfMarker(s);
    TrimOfSolid("1+1", SPACES);
    OutputOfMarker(s, "1+1", eval);
    assert Output(Pieces(s, 0), eval) == "2";
    BodyIsEvaluated(s, false, look, sc);
    TwoHasNoBraces();
  }

  lemma TwoHasNoBraces()
    ensures !HasBraces("2")
  {
  }

  lemma PiecesOfMarker(s: string)
    requires s == "{{script: 1+1}}"
    ensures Pieces(s, 0) == [Gap(""), Marker(s, "1+1"), Gap("")]
  {
    OneMarker();
    assert |s| == 15 && s[0..0] == "" && s[0..15] == s && s[10..13] == "1+1" && s[15..] == "";
    assert Pieces(s, 15) == [Gap("")];
    assert Pieces(s, 0) == [Gap(""), Marker(s, "1+1")] + Pieces(s, 15);
  }

  lemma OneMarker()
    ensures FirstMark("{{script: 1+1}}", 0) == Some(Mark(0, 10, 13)) && FirstMark("{{script: 1+1}}", 15) == None
  {
    var s := "{{script: 1+1}}";
    assert s[0..9] == OPEN;
    assert SpaceRun(s, 10) == 0 && SpaceRun(s, 9) == 1;
    assert FindEnd(s, 13) == Some(13);
    assert FindEnd(s, 12) == Some(13);
    assert FindEnd(s, 11) == Some(13);
    assert FindEnd(s, 10) == Some(13);
  }

  lemma OutputOfMarker(s: string, group: string, eval: string -> Option<string>)
    ensures Output([Gap(""), Marker(s, group), Gap("")], eval) == Value(Marker(s, group), eval)
  {
    OutputOfTwo(Gap(""), Marker(s, group), [Gap("")], eval);
    OutputCons(Gap(""), [], eval);
    assert [Gap("")] + [] == [Gap("")];
    assert [Gap(""), Marker(s, group)] + [Gap("")] == [Gap(""), Marker(s, group), Gap("")];
  }

  // ---- failures ----

  /** The template of this text fails, if it comes to one. */
  predicate TemplateFails(s: string, look: Look, sc: Scripts) {
    HasBraces(Pass(s, 0)) ==> sc.template(Pass(s, 0), look).None?
  }

  /** No script in this text succeeds. */
  predicate MarksFail(s: string, look: Look, sc: Scripts) {
    forall p :: p in Pieces(s, 0) && p.Marker? ==> sc.expr(TrimSpace(p.group), look).None?
  }

  /** A template that fails leaves its text as it is exactly when the text has none of the short forms: those
      stay expanded. */
  lemma FailedTemplateKeepsExactlyWhenClean(s: string, look: Look, sc: Scripts)
    requires TemplateFails(s, look, sc)
    ensures ApplyTpl(s, look, sc) == s <==> Clean(s)
    ensures ApplyTpl(s, look, sc) == Pass(s, 0)
  {
    PassFixes(s);
    if s == "" {
      NoBracesClean(s);
    }
  }

  /** A text whose scripts fail, or that is a whole program and fails, and whose template fails, is used as it
      is exactly when it has none of the short forms. */
  lemma FailuresKeepTheTextExactlyWhenClean(s: string, whole: bool, look: Look, sc: Scripts)
    requires if whole then sc.program(s, look).None? else MarksFail(s, look, sc)
    requires TemplateFails(s, look, sc)
    ensures EvalBody(s, whole, look, sc) == s <==> Clean(s)
  {
    if !whole {
      FailedScriptsChangeNothing(s, 0, x => sc.expr(x, look));
      assert s[0..] == s;
    }
    FailedTemplateKeepsExactlyWhenClean(s, look, sc);
  }

  const OPEN_END: string := "{{path}} {{"

  lemma OpenEndHasNoMarks(i: nat)
    requires i <= |OPEN_END|
    ensures FirstMark(OPEN_END, i).None?
  {
    assert OPEN[2] == 's' && forall k :: 2 <= k < 5 ==> OPEN_END[k] != 's';
    forall at: nat ensures !At(OPEN_END, at, OPEN) {
      if at + |OPEN| <= |OPEN_END| {
        assert OPEN_END[at..at + |OPEN|][2] == OPEN_END[at + 2];
      }
    }
    if FirstMark(OPEN_END, i).Some? {
      FirstIsScanned(OPEN_END, i);
    }
  }

  lemma TailOfOpenEnd(i: nat)
    requires 8 <= i <= |OPEN_END|
    ensures Pass(OPEN_END, i) == OPEN_END[i..]
    decreases |OPEN_END| - i
  {
    if i < |OPEN_END| {
      if PairAt(OPEN_END, i).Some? { PairText(OPEN_END, i); }
      TailOfOpenEnd(i + 1);
    }
  }

  lemma OpenEndExpands()
    ensures Pass(OPEN_END, 0) == "{{.path}} {{" && !Clean(OPEN_END)
  {
    assert OPEN_END[0..8] == PAIRS[0].short;
    assert PairAt(OPEN_END, 0) == Some(PAIRS[0]);
    TailOfOpenEnd(8);
    assert OPEN_END[8..] == " {{";
  }

  /** A text whose template does not parse, because its last action has no end: it is used expanded. */
  lemma ShortFormStaysExpanded(look: Look, sc: Scripts)
    requires sc.template("{{.path}} {{", look).None?
    ensures EvalBody("{{path}} {{", false, look, sc) == "{{.path}} {{"
  {
    OpenEndHasNoMarks(0);
    OpenEndExpands();
    FailedScriptsChangeNothing(OPEN_END, 0, x => sc.expr(x, look));
    assert OPEN_END[0..] == OPEN_END;
    FailedTemplateKeepsExactlyWhenClean(OPEN_END, look, sc);
  }

  // ---- responses ----

  datatype Response = Response(status: int, contentType: string, contentLength: int, body: string)

  function Render(r: Rule, look: Look, sc: Scripts): Response {
    var whole := r.script != "";
    var body := EvalBody(if whole then r.script else r.body, whole, look, sc);
    Response(if r.status == 0 then 200 else r.status,
             if r.contentType == "" then "application/json" else r.contentType,
             |body|, body)
  }

  /** What a mock serves. */
  lemma MockServes(r: Rule, look: Look, sc: Scripts)
    ensures var a := Render(r, look, sc);
            && a.contentLength == |a.body|
            && (r.script != "" ==> Evaluated(r.script, true, look, sc, a.body))
            && (r.script == "" ==> Evaluated(r.body, false, look, sc, a.body))
            && (r.status != 0 ==> a.status == r.status) && (r.status == 0 ==> a.status == 200)
            && (r.contentType != "" ==> a.contentType == r.contentType)
            && (r.contentType == "" ==> a.contentType == "application/json")
  {
    BodyIsEvaluated(r.script, true, look, sc);
    BodyIsEvaluated(r.body, false, look, sc);
  }

  // ---- the request ----

  const LIMIT: nat := 0x10_0000

  datatype Decoded<J> = Failed | Null | Object(fields: map<string, J>)

  datatype Codec<!J> = Codec(decode: string -> Decoded<J>, encode: map<string, J> -> Option<string>, str: string -> J)

  /** The part of an http.Request that a rewrite can change: what is left to read of the body, its
      announced length, what GetBody replays, and the Content-Type header. */
  datatype Content = Content(body: Option<string>, contentLength: int,
                             getBody: Option<string>, contentType: Option<string>)

  function ReadLimited(body: Option<string>): string {
    if body.None? then "" else if |body.value| <= LIMIT then body.value else body.value[..LIMIT]
  }

  function ObjectOf<J>(d: Decoded<J>): map<string, J> {
    if d.Object? then d.fields else map[]
  }

  function Values<J>(r: Rule, look: Look, sc: Scripts, c: Codec<J>): map<string, J> {
    map k | k in r.rewriteJson :: c.str(EvalJsonValue(r.rewriteJson[k], look, sc))
  }

  /** The object with exactly the keys of vals replaced or added. */
  function Overlay<J>(obj: map<string, J>, vals: map<string, J>): map<string, J> {
    map k | k in obj.Keys + vals.Keys :: if k in vals then vals[k] else obj[k]
  }

  predicate Replaces(r: Rule) { r.rewriteBody != "" || r.script != "" }

  predicate Merges(r: Rule) { !Replaces(r) && r.rewriteJson != map[] }

  function Merged<J>(body: Option<string>, r: Rule, look: Look, sc: Scripts, c: Codec<J>): map<string, J> {
    Overlay(ObjectOf(c.decode(ReadLimited(body))), Values(r, look, sc, c))
  }

  function NewBody(r: Rule, look: Look, sc: Scripts): string {
    EvalBody(if r.script != "" then r.script else r.rewriteBody, r.script != "", look, sc)
  }

  /** applyRewrite as a function. */
  function Rewritten<J>(q: Content, r: Rule, look: Look, sc: Scripts, c: Codec<J>): Content {
    if Replaces(r) then
      var body := NewBody(r, look, sc);
      q.(body := Some(body), contentLength := |body|, getBody := Some(body))
    else if !Merges(r) then q
    else
      match c.encode(Merged(q.body, r, look, sc, c))
      case None =>
        var raw := ReadLimited(q.body);
        q.(body := Some(raw), contentLength := |raw|)
      case Some(out) =>
        Content(Some(out), |out|, Some(out), Some("application/json"))
  }

  class Request {
    const look: Look
    var body: Option<string>
    var contentLength: int
    var getBody: Option<string>
    var contentType: Option<string>

    constructor (look: Look, content: Content)
      ensures this.look == look && Value() == content
    {
      this.look := look;
      body, contentLength := content.body, content.contentLength;
      getBody, contentType := content.getBody, content.contentType;
    }

    function Value(): Content
      reads this
    {
      Content(body, contentLength, getBody, contentType)
    }
  }

  /** The loop has merged every key of vals but those in todo. */
  ghost predicate MergedBut<J>(obj: map<string, J>, obj0: map<string, J>, vals: map<string, J>, todo: set<string>) {
    && todo <= vals.Keys
    && obj == Overlay(obj0, vals - todo)
  }

  lemma MergeStep<J>(obj: map<string, J>, obj0: map<string, J>, vals: map<string, J>, todo: set<string>, k: string)
    requires MergedBut(obj, obj0, vals, todo) && k in todo
    ensures MergedBut(obj[k := vals[k]], obj0, vals, todo - {k})
  {
  }

  lemma MergeEnds<J>(obj0: map<string, J>, vals: map<string, J>)
    ensures MergedBut(obj0, obj0, vals, vals.Keys)
    ensures vals - {} == vals
  {
    assert vals - vals.Keys == map[];
  }

  /** The merge loop, over the keys in whatever order the runtime gives them. */
  method Merge<J>(obj0: map<string, J>, r: Rule, look: Look, sc: Scripts, c: Codec<J>) returns (obj: map<string, J>)
    ensures obj == Overlay(obj0, Values(r, look, sc, c))
  {
    obj := obj0;
    ghost var vals := Values(r, look, sc, c);
    var todo := r.rewriteJson.Keys;
    assert vals.Keys == todo;
    MergeEnds(obj0, vals);
    while todo != {}
      invariant todo <= r.rewriteJson.Keys
      invariant MergedBut(obj, obj0, vals, todo)
      decreases |todo|
    {
      var k :| k in todo;
      MergeStep(obj, obj0, vals, todo, k);
      obj := obj[k := c.str(EvalJsonValue(r.rewriteJson[k], look, sc))];
      todo := todo - {k};
    }
  }

  method ApplyRewrite<J>(req: Request, r: Rule, sc: Scripts, c: Codec<J>)
    modifies req
    ensures req.Value() == Rewritten(old(req.Value()), r, req.look, sc, c)
  {
    if r.rewriteBody != "" || r.script != "" {
      var src := r.rewriteBody;
      if r.script != "" {
        src := r.script;
      }
      var body := EvalBody(src, r.script != "", req.look, sc);
      req.body := Some(body);
      req.contentLength := |body|;
      req.getBody := Some(body);
      return;
    }
    if |r.rewriteJson| == 0 {
      return;
    }
    var raw := "";
    if req.body.Some? {
      raw := if |req.body.value| <= LIMIT then req.body.value else req.body.value[..LIMIT];
    }
    var obj := map[];
    var d := c.decode(raw);
    if d.Object? {
      obj := d.fields;
    }
    obj := Merge(obj, r, req.look, sc, c);
    var out := c.encode(obj);
    if out.None? {
      req.body := Some(raw);
      req.contentLength := |raw|;
      return;
    }
    req.body := out;
    req.contentLength := |out.value|;
    req.contentType := Some("application/json");
    req.getBody := out;
  }

  // ---- what a rewrite means ----

  /** What a rewrite sends: the evaluated program or body, or an object with the rule's values evaluated, or, if
      the object cannot be written, what was read. */
  lemma RewriteSends<J>(q: Content, r: Rule, look: Look, sc: Scripts, c: Codec<J>)
    ensures var q' := Rewritten(q, r, look, sc, c);
            && (r.script != "" ==> q'.body.Some? && Evaluated(r.script, true, look, sc, q'.body.value))
            && (r.script == "" && r.rewriteBody != "" ==>
                  q'.body.Some? && Evaluated(r.rewriteBody, false, look, sc, q'.body.value))
            && (r.script == "" && r.rewriteBody == "" && r.rewriteJson == map[] ==> q' == q)
            && (Merges(r) && c.encode(Merged(q.body, r, look, sc, c)).Some? ==>
                  q'.body == c.encode(Merged(q.body, r, look, sc, c)) && q'.contentType == Some("application/json"))
            && (Merges(r) && c.encode(Merged(q.body, r, look, sc, c)).None? ==>
                  q'.body == Some(ReadLimited(q.body)) && q'.getBody == q.getBody && q'.contentType == q.contentType)
            && (Replaces(r) ==> q'.contentType == q.contentType)
  {
    BodyIsEvaluated(r.script, true, look, sc);
    BodyIsEvaluated(r.rewriteBody, false, look, sc);
  }

  /** A request without a body is merged as the empty text, one that is no object as the empty object. */
  lemma NoBodyIsEmpty<J>(q: Content, r: Rule, look: Look, sc: Scripts, c: Codec<J>)
    requires !c.decode(if q.body.Some? then ReadLimited(q.body) else "").Object?
    ensures Merged(q.body, r, look, sc, c).Keys == r.rewriteJson.Keys
  {
  }

  /** The object that a merging rule writes: at the rule's keys the evaluated values as texts, elsewhere what was
      there. */
  lemma MergedHolds<J>(body: Option<string>, r: Rule, look: Look, sc: Scripts, c: Codec<J>, k: string)
    returns (x: string)
    ensures var o, before := Merged(body, r, look, sc, c), ObjectOf(c.decode(ReadLimited(body)));
            && (k in r.rewriteJson ==> k in o && o[k] == c.str(x) && JsonEvaluated(r.rewriteJson[k], look, sc, x))
            && (k !in r.rewriteJson ==> (k in o <==> k in before) && (k in before ==> o[k] == before[k]))
  {
    x := if k in r.rewriteJson then EvalJsonValue(r.rewriteJson[k], look, sc) else "";
    if k in r.rewriteJson { JsonValueIsEvaluated(r.rewriteJson[k], look, sc); }
  }

  /** The length, the body and every replay tell the same story. */
  predicate Agrees(q: Content) {
    q.body.Some? && q.contentLength == |q.body.value| && q.getBody == q.body
  }

  /** A rewritten request agrees with itself exactly when the object could be written, or GetBody
      already replayed what was read. */
  lemma AgreesExactlyWhenWritten<J>(q: Content, r: Rule, look: Look, sc: Scripts, c: Codec<J>)
    requires Replaces(r) || Merges(r)
    ensures Agrees(Rewritten(q, r, look, sc, c)) <==>
            (Replaces(r) || c.encode(Merged(q.body, r, look, sc, c)).Some? || q.getBody == Some(ReadLimited(q.body)))
  {
  }

  /** Rules without scripts and braces do to the letter what they say, whatever the interpreter does: a
      mock serves its body, a body rewrite sends its body, both with the right length. */
  lemma StaticRulesAreLiteral<J>(q: Content, r: Rule, look: Look, sc: Scripts, c: Codec<J>)
    requires r.script == ""
    ensures !HasBraces(r.body) ==>
              var a := Render(r, look, sc);
              a.body == r.body && a.contentLength == |r.body| && a.status != 0 && a.contentType != ""
    ensures r.rewriteBody != "" && !HasBraces(r.rewriteBody) ==>
              var q' := Rewritten(q, r, look, sc, c);
              Agrees(q') && q'.body == Some(r.rewriteBody) && q'.contentType == q.contentType
  {
    if !HasBraces(r.body) { PlainTextIsKept(r.body, look, sc); }
    if !HasBraces(r.rewriteBody) { PlainTextIsKept(r.rewriteBody, look, sc); }
  }

  function Texts<J>(c: Codec<J>, texts: map<string, string>): map<string, J> {
    map k | k in texts :: c.str(texts[k])
  }

  /** The codec can write every object that it has read, with texts put at any keys. */
  ghost predicate WritesMerged<J(!new)>(c: Codec<J>) {
    forall text, texts :: c.encode(Overlay(ObjectOf(c.decode(text)), Texts(c, texts))).Some?
  }

  lemma ValuesAreTexts<J>(r: Rule, look: Look, sc: Scripts, c: Codec<J>)
    ensures var texts := map k | k in r.rewriteJson :: EvalJsonValue(r.rewriteJson[k], look, sc);
            Values(r, look, sc, c) == Texts(c, texts)
  {
  }

  /** With such a codec, and encoding/json is one, a rewritten request always agrees with itself. */
  lemma AgreesAlways<J(!new)>(q: Content, r: Rule, look: Look, sc: Scripts, c: Codec<J>)
    requires (Replaces(r) || Merges(r)) && WritesMerged(c)
    ensures Agrees(Rewritten(q, r, look, sc, c))
  {
    ValuesAreTexts(r, look, sc, c);
    AgreesExactlyWhenWritten(q, r, look, sc, c);
  }

  /** The other branch needs a codec that fails to write: then the request can replay another body than it
      sends. */
  lemma StaleReplayExists(look: Look, sc: Scripts)
    ensures var c: Codec<int> := Codec(_ => Failed, _ => None, _ => 0);
            var r := Rule("a", "", "", "", 0, "", "", "rewrite", map["k" := "v"], "", "");
            var q := Content(Some("{}"), 2, Some("[]"), None);
            !WritesMerged(c) && !Agrees(Rewritten(q, r, look, sc, c))
  {
    var c: Codec<int> := Codec(_ => Failed, _ => None, _ => 0);
    var r := Rule("a", "", "", "", 0, "", "", "rewrite", map["k" := "v"], "", "");
    assert "k" in r.rewriteJson;
    assert Merges(r);
    assert c.encode(Overlay(ObjectOf(c.decode("")), Texts(c, map[]))).None?;
  }

  /** The codec reads back what it writes for this object. */
  ghost predicate ReadsBack<J>(o: map<string, J>, c: Codec<J>) {
    c.encode(o).Some? && c.decode(c.encode(o).value) == Object(o)
  }

  /** Reading the new body gives the rule's values at the rule's keys and the old values elsewhere. */
  lemma MergedReadsBack<J>(q: Content, r: Rule, look: Look, sc: Scripts, c: Codec<J>, k: string)
    requires Merges(r) && ReadsBack(Merged(q.body, r, look, sc, c), c)
    ensures var before := ObjectOf(c.decode(ReadLimited(q.body)));
            var d := c.decode(Rewritten(q, r, look, sc, c).body.value);
            && d.Object?
            && (k in d.fields <==> k in before || k in r.rewriteJson)
            && (k in r.rewriteJson ==> d.fields[k] == c.str(EvalJsonValue(r.rewriteJson[k], look, sc)))
            && (k in before && k !in r.rewriteJson ==> d.fields[k] == before[k])
  {
    var o := Merged(q.body, r, look, sc, c);
    assert c.decode(c.encode(o).value) == Object(o);
  }

  /** An object text whose object is complete after m characters: nothing shorter is an object, and what
      follows, blanks at most, does not change it. */
  ghost predicate ObjectEndsAt<J>(text: string, m: nat, c: Codec<J>) {
    && m <= |text| && c.decode(text).Object?
    && (forall n :: 0 <= n < m ==> !c.decode(text[..n]).Object?)
    && (forall n :: m <= n <= |text| ==> c.decode(text[..n]) == c.decode(text))
  }

  /** The limit on what is read decides whether the body's own keys survive: they do exactly when the
      object ends within it, or the rule sets them all. */
  lemma OwnKeysSurviveExactlyWhenItFits<J>(q: Content, m: nat, r: Rule, look: Look, sc: Scripts, c: Codec<J>)
    requires q.body.Some? && ObjectEndsAt(q.body.value, m, c)
    ensures (c.decode(q.body.value).fields.Keys <= Merged(q.body, r, look, sc, c).Keys) <==>
            (m <= 0x10_0000 || c.decode(q.body.value).fields.Keys <= r.rewriteJson.Keys)
    ensures Merged(q.body, r, look, sc, c) ==
            if m > 0x10_0000 then Values(r, look, sc, c)
            else Overlay(c.decode(q.body.value).fields, Values(r, look, sc, c))
  {
    var text := q.body.value;
    if m > LIMIT {
      assert !c.decode(text[..LIMIT]).Object?;
      assert Merged(q.body, r, look, sc, c).Keys == r.rewriteJson.Keys;
    } else {
      assert text[..|text|] == text;
    }
  }

  /** The JSON text of an object whose one key, "own", has a value of n characters. */
  function OwnText(n: nat): string { "{\"own\":\"" + seq(n, _ => 'x') + "\"}" }

  lemma OwnTextLength(n: nat)
    ensures |OwnText(n)| == n + 10
  {
  }

  /** A body one byte over the limit: for any codec to which it is an object that ends with its last
      byte, its own key is lost, unless the rule sets it. */
  lemma OversizedBodyLosesItsKey<J>(q: Content, r: Rule, look: Look, sc: Scripts, c: Codec<J>)
    requires q.body == Some(OwnText(LIMIT - 9)) && "own" !in r.rewriteJson
    requires ObjectEndsAt(q.body.value, LIMIT + 1, c) && c.decode(q.body.value).fields.Keys == {"own"}
    ensures |q.body.value| == LIMIT + 1 && Merged(q.body, r, look, sc, c) == Values(r, look, sc, c)
    ensures "own" !in Merged(q.body, r, look, sc, c)
  {
    OwnTextLength(LIMIT - 9);
    OwnKeysSurviveExactlyWhenItFits(q, LIMIT + 1, r, look, sc, c);
  }

  /** The same rule a second time changes nothing, if the first result can be read whole. */
  lemma RewritingTwice<J>(q: Content, r: Rule, look: Look, sc: Scripts, c: Codec<J>)
    requires Merges(r) && ReadsBack(Merged(q.body, r, look, sc, c), c)
    requires |c.encode(Merged(q.body, r, look, sc, c)).value| <= LIMIT
    ensures var once := Rewritten(q, r, look, sc, c); Rewritten(once, r, look, sc, c) == once
  {
    var o := Merged(q.body, r, look, sc, c);
    var t := c.encode(o).value;
    assert c.decode(t) == Object(o);
    assert Overlay(o, Values(r, look, sc, c)) == o;
  }
}
