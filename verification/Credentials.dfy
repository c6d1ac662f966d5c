/** The walk that looks for plaintext credentials in the spec, against the offending positions of the
    tree. */
module Credentials {
  import opened Wrappers
  import opened Json
  import opened Decimal
  import opened Domain

  datatype Url = NotUrl | Unparsable | Url(userinfo: bool, query: seq<(string, string)>)

  /** `sensitive` is the key pattern, `url` the URL splitter. */
  datatype Checker = Checker(sensitive: string -> bool, url: string -> Url)

  const ALLOWED_REFERENCE := "spec.credential_ref"
  const REFERENCE_KEY := "credential_ref"

  predicate Exempt(v: Json) {
    v == Null || v == Str("") || v == Bool(false)
  }

  function FirstQueryKey(c: Checker, query: seq<(string, string)>): Option<string> {
    if query == [] then None
    else if c.sensitive(query[0].0) && query[0].1 != "" then Some(query[0].0)
    else FirstQueryKey(c, query[1..])
  }

  function UrlPath(c: Checker, s: string, path: string): Option<string> {
    match c.url(s)
    case NotUrl => None
    case Unparsable => None
    case Url(userinfo, query) =>
      if userinfo then Some(path)
      else
        match FirstQueryKey(c, query)
        case None => None
        case Some(key) => Some(path + ".query." + key)
  }

  /** What one step down adds to the path: `.key` in an object, `[index]` in a list. */
  function Step(v: Json, i: nat): string
    requires i < Size(v)
  {
    if v.Object? then "." + v.fields[i].key else "[" + PrintNat(i) + "]"
  }

  predicate SensitiveField(c: Checker, v: Json, i: nat)
    requires i < Size(v)
  {
    v.Object? && c.sensitive(v.fields[i].key) && !Exempt(v.fields[i].value)
  }

  function FirstPath(c: Checker, v: Json, path: string): Option<string>
    decreases v, 1
  {
    match v
    case Object(_) => FirstAmong(c, v, 0, path)
    case List(_) => FirstAmong(c, v, 0, path)
    case Tuple(_) => FirstAmong(c, v, 0, path)
    case Str(s) => UrlPath(c, s, path)
    case _ => None
  }

  /** The loop over fields or items, from the i-th on. */
  function FirstAmong(c: Checker, v: Json, i: nat, path: string): Option<string>
    requires i <= Size(v)
    decreases v, 0, Size(v) - i
  {
    if i == Size(v) then None
    else
      var child := path + Step(v, i);
      if SensitiveField(c, v, i) && child != ALLOWED_REFERENCE then Some(child)
      else
        var nested := FirstPath(c, Child(v, i), child);
        if nested.Some? then nested else FirstAmong(c, v, i + 1, path)
  }

  // ---------------------------------------------------------------- offending positions

  function Rendered(v: Json, pos: Position): string
    requires IsPosition(v, pos)
    decreases pos
  {
    if pos == [] then ""
    else
      (if v.Object? then "." + v.fields[pos[0]].key else "[" + PrintNat(pos[0]) + "]")
      + Rendered(Child(v, pos[0]), pos[1..])
  }

  /** The position is the field `credential_ref` of the root itself. */
  predicate IsRootReference(v: Json, pos: Position) {
    |pos| == 1 && v.Object? && pos[0] < |v.fields| && v.fields[pos[0]].key == "credential_ref"
  }

  /** A sensitive field may hold null, the empty string or false; anything else, zero included, counts. */
  predicate HoldsAValue(v: Json) {
    && !v.Null?
    && (v.Str? ==> |v.s| > 0)
    && (v.Bool? ==> v.b)
  }

  /** The position is a field with a sensitive name that holds a value. */
  predicate UnderSensitiveKey(c: Checker, v: Json, pos: Position)
    requires IsPosition(v, pos)
    decreases pos
  {
    && pos != []
    && if |pos| == 1 then v.Object? && c.sensitive(v.fields[pos[0]].key) && HoldsAValue(v.fields[pos[0]].value)
       else UnderSensitiveKey(c, Child(v, pos[0]), pos[1..])
  }

  predicate CarriesCredential(c: Checker, query: seq<(string, string)>) {
    exists i :: 0 <= i < |query| && c.sensitive(query[i].0) && query[i].1 != ""
  }

  predicate IsCredentialUrl(c: Checker, v: Json) {
    && v.Str? && c.url(v.s).Url?
    && (c.url(v.s).userinfo || CarriesCredential(c, c.url(v.s).query))
  }

  predicate Offends(c: Checker, v: Json, pos: Position) {
    && IsPosition(v, pos)
    && ((UnderSensitiveKey(c, v, pos) && !IsRootReference(v, pos)) || IsCredentialUrl(c, Node(v, pos)))
  }

  /** What is reported for an offending position: its path, and the query key for a URL without user. */
  function Report(c: Checker, v: Json, pos: Position): (text: string)
    requires Offends(c, v, pos)
  {
    var path := "spec" + Rendered(v, pos);
    if UnderSensitiveKey(c, v, pos) && !IsRootReference(v, pos) then path
    else
      var s := Node(v, pos).s;
      UrlQueryOffends(c, s, path);
      UrlPath(c, s, path).value
  }

  lemma {:induction false} QueryKeyIsFirst(c: Checker, query: seq<(string, string)>)
    ensures FirstQueryKey(c, query).None? <==> forall i :: 0 <= i < |query| ==>
            !(c.sensitive(query[i].0) && query[i].1 != "")
    ensures FirstQueryKey(c, query).Some? ==>
              exists i :: 0 <= i < |query| && query[i].0 == FirstQueryKey(c, query).value && c.sensitive(query[i].0)
                  && query[i].1 != ""
                          && forall k :: 0 <= k < i ==> !(c.sensitive(query[k].0) && query[k].1 != "")
  {
    if query != [] && !(c.sensitive(query[0].0) && query[0].1 != "") {
      var rest := query[1..];
      QueryKeyIsFirst(c, rest);
      assert forall i :: 0 < i < |query| ==> query[i] == rest[i - 1];
      if FirstQueryKey(c, rest).Some? {
        var i :| 0 <= i < |rest| && rest[i].0 == FirstQueryKey(c, rest).value && c.sensitive(rest[i].0)
            && rest[i].1 != ""
                 && forall k :: 0 <= k < i ==> !(c.sensitive(rest[k].0) && rest[k].1 != "");
        assert query[i + 1] == rest[i];
      }
    }
  }

  lemma UrlQueryOffends(c: Checker, s: string, path: string)
    ensures UrlPath(c, s, path).Some? <==> IsCredentialUrl(c, Str(s))
  {
    if c.url(s).Url? {
      QueryKeyIsFirst(c, c.url(s).query);
    }
  }

  /** What is reported for a URL: its path if it names a user, and otherwise the path with the first
      sensitive query key that has a value. */
  lemma UrlReportIsExact(c: Checker, v: Json, pos: Position)
    requires Offends(c, v, pos) && (UnderSensitiveKey(c, v, pos) ==> IsRootReference(v, pos))
    ensures var url := c.url(Node(v, pos).s);
            && (url.userinfo ==> Report(c, v, pos) == "spec" + Rendered(v, pos))
            && (!url.userinfo ==>
                  exists i ::
                    && 0 <= i < |url.query| && c.sensitive(url.query[i].0) && url.query[i].1 != ""
                    && (forall k :: 0 <= k < i ==> !(c.sensitive(url.query[k].0) && url.query[k].1 != ""))
                    && Report(c, v, pos) == "spec" + Rendered(v, pos) + ".query." + url.query[i].0)
  {
    QueryKeyIsFirst(c, c.url(Node(v, pos).s).query);
  }

  // ---------------------------------------------------------------- the string test for the root reference

  /** Comparing the rendered path with "spec.credential_ref" singles out the root's own field: later
      steps start with a dot or a bracket, which that name does not contain. */
  lemma RenderedReferenceIsRootField(v: Json, pos: Position)
    requires IsPosition(v, pos)
    ensures "spec" + Rendered(v, pos) == ALLOWED_REFERENCE <==> IsRootReference(v, pos)
  {
    AllowedReferenceIsSimple();
    SuffixIsInjective("spec", Rendered(v, pos), "." + REFERENCE_KEY);
    if |pos| > 1 {
      DeeperPathsDiffer(v, pos);
    } else if |pos| == 1 {
      assert pos[1..] == [] && Rendered(v, pos) == Step(v, pos[0]);
      if v.Object? {
        SuffixIsInjective(".", v.fields[pos[0]].key, REFERENCE_KEY);
      } else {
        assert Step(v, pos[0])[0] == '[';
      }
    }
  }

  lemma AllowedReferenceIsSimple()
    ensures ALLOWED_REFERENCE == "spec" + ("." + REFERENCE_KEY)
    ensures forall i :: 0 <= i < |REFERENCE_KEY| ==> REFERENCE_KEY[i] != '.' && REFERENCE_KEY[i] != '['
  {
  }

  /** Beyond the root's own fields, a second dot or bracket follows the first. */
  lemma DeeperPathsDiffer(v: Json, pos: Position)
    requires IsPosition(v, pos) && |pos| > 1
    ensures Rendered(v, pos) != "." + REFERENCE_KEY
  {
    AllowedReferenceIsSimple();
    var child, below := Child(v, pos[0]), pos[1..];
    var first, rest := Step(v, pos[0]), Rendered(Child(v, pos[0]), pos[1..]);
    assert rest == Step(child, below[0]) + Rendered(Child(child, below[0]), below[1..]);
    var mark := rest[0];
    assert mark == '.' || mark == '[';
    assert Rendered(v, pos) == first + rest && (first + rest)[|first|] == mark && |first| >= 1;
  }

  // ---------------------------------------------------------------- the walk finds the first offence

  /** The same notions for a subtree reached by `path`, with the test the walk makes. */
  predicate OffendsUnder(c: Checker, v: Json, pos: Position, path: string) {
    && IsPosition(v, pos)
    && ((UnderSensitiveKey(c, v, pos) && path + Rendered(v, pos) != ALLOWED_REFERENCE)
        || IsCredentialUrl(c, Node(v, pos)))
  }

  function ReportUnder(c: Checker, v: Json, pos: Position, path: string): Option<string>
    requires OffendsUnder(c, v, pos, path)
  {
    var full := path + Rendered(v, pos);
    if UnderSensitiveKey(c, v, pos) && full != ALLOWED_REFERENCE then Some(full) else UrlPath(c, Node(v, pos).s, full)
  }

  /** Among the offending positions at or after child i, the reported one is the first. */
  ghost predicate FirstFrom(c: Checker, v: Json, i: nat, path: string, r: Option<string>) {
    && (r.None? ==> forall q :: OffendsUnder(c, v, q, path) ==> q != [] && q[0] < i)
    && (r.Some? ==>
          exists pos ::
            && OffendsUnder(c, v, pos, path) && (pos != [] ==> pos[0] >= i) && ReportUnder(c, v, pos, path) == r
            && forall q :: OffendsUnder(c, v, q, path) && (q != [] ==> q[0] >= i) ==> q == pos || Before(pos, q))
  }

  lemma OneStepDown(c: Checker, v: Json, q: Position, path: string)
    requires q != [] && q[0] < Size(v)
    ensures IsPosition(v, q) <==> IsPosition(Child(v, q[0]), q[1..])
    ensures IsPosition(v, q) ==>
              && path + Rendered(v, q) == (path + Step(v, q[0])) + Rendered(Child(v, q[0]), q[1..])
              && Node(v, q) == Node(Child(v, q[0]), q[1..])
  {
    if IsPosition(v, q) {
      ConcatIsAssociative(path, Step(v, q[0]), Rendered(Child(v, q[0]), q[1..]));
    }
  }

  lemma ConcatIsAssociative(a: string, b: string, c: string)
    ensures a + (b + c) == (a + b) + c
  {
  }

  lemma SensitiveBelow(c: Checker, v: Json, q: Position, path: string)
    requires q != [] && IsPosition(v, q)
    ensures |q| == 1 ==> UnderSensitiveKey(c, v, q) == SensitiveField(c, v, q[0])
    ensures |q| == 1 ==> path + Rendered(v, q) == path + Step(v, q[0])
    ensures |q| == 1 ==> !UnderSensitiveKey(c, Child(v, q[0]), q[1..])
    ensures |q| > 1 ==> UnderSensitiveKey(c, v, q) == UnderSensitiveKey(c, Child(v, q[0]), q[1..])
  {
    if |q| == 1 {
      assert q[1..] == [];
      assert Rendered(v, q) == Step(v, q[0]);
    }
  }

  /** A position offends below child i if and only if it offends in the child, unless it is the field
      itself with a sensitive name. */
  lemma OffenceInChild(c: Checker, v: Json, q: Position, path: string)
    requires q != [] && q[0] < Size(v)
    ensures OffendsUnder(c, v, q, path) <==>
            || (|q| == 1 && SensitiveField(c, v, q[0]) && path + Step(v, q[0]) != ALLOWED_REFERENCE)
            || OffendsUnder(c, Child(v, q[0]), q[1..], path + Step(v, q[0]))
    ensures OffendsUnder(c, Child(v, q[0]), q[1..], path + Step(v, q[0]))
            && !(|q| == 1 && SensitiveField(c, v, q[0]) && path + Step(v, q[0]) != ALLOWED_REFERENCE)
            ==> ReportUnder(c, v, q, path) == ReportUnder(c, Child(v, q[0]), q[1..], path + Step(v, q[0]))
  {
    OneStepDown(c, v, q, path);
    assert |q| == 1 ==> IsPosition(Child(v, q[0]), q[1..]);
    if IsPosition(v, q) {
      SensitiveBelow(c, v, q, path);
    }
  }

  lemma {:induction false} WalkFindsFirst(c: Checker, v: Json, path: string)
    ensures FirstFrom(c, v, 0, path, FirstPath(c, v, path))
    decreases v, 1
  {
    if v.Object? || v.List? || v.Tuple? {
      LoopFindsFirst(c, v, 0, path);
    } else if v.Str? {
      UrlQueryOffends(c, v.s, path);
      assert path + Rendered(v, []) == path;
      assert forall q :: IsPosition(v, q) ==> q == [];
      if FirstPath(c, v, path).Some? {
        assert OffendsUnder(c, v, [], path) && ReportUnder(c, v, [], path) == FirstPath(c, v, path);
      }
    }
  }

  lemma {:induction false} LoopFindsFirst(c: Checker, v: Json, i: nat, path: string)
    requires i <= Size(v) && !v.Str?
    ensures FirstFrom(c, v, i, path, FirstAmong(c, v, i, path))
    decreases v, 0, Size(v) - i
  {
    if i < Size(v) {
      var child := path + Step(v, i);
      if SensitiveField(c, v, i) && child != ALLOWED_REFERENCE {
        FieldIsFirst(c, v, i, path);
      } else {
        WalkFindsFirst(c, Child(v, i), child);
        if FirstPath(c, Child(v, i), child).Some? {
          ChildIsFirst(c, v, i, path);
        } else {
          LoopFindsFirst(c, v, i + 1, path);
          RestIsFirst(c, v, i, path, FirstAmong(c, v, i + 1, path));
        }
      }
    }
  }

  /** A sensitive field is reported before anything below or after it. */
  lemma FieldIsFirst(c: Checker, v: Json, i: nat, path: string)
    requires i < Size(v) && SensitiveField(c, v, i) && path + Step(v, i) != ALLOWED_REFERENCE
    ensures FirstFrom(c, v, i, path, Some(path + Step(v, i)))
  {
    var pos := [i];
    OffenceInChild(c, v, pos, path);
    assert pos[1..] == [];
    assert path + Rendered(v, pos) == path + Step(v, i);
    forall q | OffendsUnder(c, v, q, path) && (q != [] ==> q[0] >= i) ensures q == pos || Before(pos, q) {
      if |q| > 1 && q[0] == i {
        assert Before(pos[1..], q[1..]);
      }
    }
    assert OffendsUnder(c, v, pos, path) && ReportUnder(c, v, pos, path) == Some(path + Step(v, i));
  }

  /** What offends first in child i offends first from child i on. */
  lemma ChildIsFirst(c: Checker, v: Json, i: nat, path: string)
    requires i < Size(v) && !v.Str?
    requires !(SensitiveField(c, v, i) && path + Step(v, i) != ALLOWED_REFERENCE)
    requires FirstFrom(c, Child(v, i), 0, path + Step(v, i), FirstPath(c, Child(v, i), path + Step(v, i)))
    requires FirstPath(c, Child(v, i), path + Step(v, i)).Some?
    ensures FirstFrom(c, v, i, path, FirstPath(c, Child(v, i), path + Step(v, i)))
  {
    var child := path + Step(v, i);
    var r := FirstPath(c, Child(v, i), child);
    var p :| OffendsUnder(c, Child(v, i), p, child) && ReportUnder(c, Child(v, i), p, child) == r
             && forall q :: OffendsUnder(c, Child(v, i), q, child) && (q != [] ==> q[0] >= 0) ==> q == p || Before(p,
                                         q);
    var pos := [i] + p;
    assert pos[1..] == p;
    OffenceInChild(c, v, pos, path);
    forall q | OffendsUnder(c, v, q, path) && (q != [] ==> q[0] >= i) ensures q == pos || Before(pos, q) {
      FirstBelowChild(c, v, i, path, p, q);
    }
    assert OffendsUnder(c, v, pos, path) && ReportUnder(c, v, pos, path) == r;
  }

  lemma FirstBelowChild(c: Checker, v: Json, i: nat, path: string, p: Position, q: Position)
    requires i < Size(v) && !v.Str?
    requires !(SensitiveField(c, v, i) && path + Step(v, i) != ALLOWED_REFERENCE)
    requires forall q' :: OffendsUnder(c, Child(v, i), q', path + Step(v, i)) ==> q' == p || Before(p, q')
    requires OffendsUnder(c, v, q, path) && (q != [] ==> q[0] >= i)
    ensures q == [i] + p || Before([i] + p, q)
  {
    assert ([i] + p)[1..] == p;
    if q != [] && q[0] == i {
      OffenceInChild(c, v, q, path);
      assert q == [i] + q[1..];
    }
  }

  lemma RestIsFirst(c: Checker, v: Json, i: nat, path: string, r: Option<string>)
    requires i < Size(v) && !v.Str?
    requires !(SensitiveField(c, v, i) && path + Step(v, i) != ALLOWED_REFERENCE)
    requires FirstFrom(c, Child(v, i), 0, path + Step(v, i), None)
    requires FirstFrom(c, v, i + 1, path, r)
    ensures FirstFrom(c, v, i, path, r)
  {
    forall q | OffendsUnder(c, v, q, path) && q != [] && q[0] >= i ensures q[0] >= i + 1 {
      if q[0] == i {
        OffenceInChild(c, v, q, path);
        assert false;
      }
    }
  }

  /** The walk reports nothing if and only if no position offends, and otherwise the pre-order first
      offending position. */
  lemma FirstPathIsFirstOffence(c: Checker, v: Json)
    ensures FirstPath(c, v, "spec").None? <==> forall pos :: !Offends(c, v, pos)
    ensures FirstPath(c, v, "spec").Some? ==>
              exists pos :: Offends(c, v, pos) && FirstPath(c, v, "spec").value == Report(c, v, pos)
                            && forall q :: Offends(c, v, q) ==> q == pos || Before(pos, q)
  {
    WalkFindsFirst(c, v, "spec");
    forall pos ensures Offends(c, v, pos) <==> OffendsUnder(c, v, pos, "spec")
      ensures Offends(c, v, pos) ==> ReportUnder(c, v, pos, "spec") == Some(Report(c, v, pos))
    {
      if IsPosition(v, pos) {
        RenderedReferenceIsRootField(v, pos);
        if IsCredentialUrl(c, Node(v, pos)) {
          UrlQueryOffends(c, Node(v, pos).s, "spec" + Rendered(v, pos));
        }
      }
    }
    var r := FirstPath(c, v, "spec");
    if r.Some? {
      var pos :| OffendsUnder(c, v, pos, "spec") && ReportUnder(c, v, pos, "spec") == r
                 && forall q :: OffendsUnder(c, v, q, "spec") ==> q == pos || Before(pos, q);
      assert Offends(c, v, pos);
    }
  }
}
