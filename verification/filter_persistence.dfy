/** Session-backed filter persistence of list views with a table filter
    (`ListViewTableFilterMixin`, crud_views/lib/views/mixins.py): a GET
    restores, stores or resets the filter's query string; a POST stores
    whether the filter panel is expanded. The session slot of the view is a
    map from keys to JSON values; a response is a datatype. */
module FilterPersistence {
  import opened Common

  /** The per-view session data. */
  type Session = map<string, Json>

  const FilterExpandedKey: string := "filter_expanded"
  const DefaultSessionKey: string := "filter_query_string"

  /** `vs_filter_persistence` and `vs_session_key_querystring` of the view. */
  datatype Config = Config(persistence: bool, sessionKey: string)

  /** The parts of the request the mixin reads: `request.path` and the raw
      `QUERY_STRING`. */
  datatype Request = Request(path: string, queryString: string)

  /** What the view answers: a redirect, the normal list rendering
      (`super().get`), or a JSON body. */
  datatype Response = Redirect(url: string) | Render | JsonResponse(body: map<string, Json>)

  // ---------------------------------------------------------------------
  // parse_qs

  /** `s.replace(a, b)` for single characters. */
  function ReplaceChar(s: string, a: char, b: char): (r: string)
    ensures |r| == |s|
    ensures forall i :: 0 <= i < |s| ==> r[i] == (if s[i] == a then b else s[i])
  {
    if |s| == 0 then "" else [if s[0] == a then b else s[0]] + ReplaceChar(s[1..], a, b)
  }

  /** One `name=value` field of `parse_qsl` with blank values not kept: empty
      fields, fields without '=' and fields with an empty value are dropped;
      '+' stands for a space. */
  function ParseField(field: string): (r: Option<(string, string)>)
    ensures r.Some? <==> '=' in field && IndexOf(field, '=').value + 1 < |field|
    ensures r.Some? ==> |r.value.1| > 0
    ensures r.Some? ==> var i := IndexOf(field, '=').value;
                        r.value == (ReplaceChar(field[..i], '+', ' '), ReplaceChar(field[i + 1..], '+', ' '))
  {
    match IndexOf(field, '=')
    case None => None
    case Some(i) =>
      var name := field[..i];
      var value := field[i + 1..];
      if value == "" then None
      else Some((ReplaceChar(name, '+', ' '), ReplaceChar(value, '+', ' ')))
  }

  /** A field `name=value` whose name has no '=' is split at that '=': it
      gives nothing when the value is empty, and otherwise the name and
      the value with each '+' read as a space. */
  lemma ParseFieldDecodes(name: string, value: string)
    requires '=' !in name
    ensures ParseField(name + "=" + value)
            == if value == "" then None else Some((ReplaceChar(name, '+', ' '), ReplaceChar(value, '+', ' ')))
  {
    var field := name + "=" + value;
    IndexOfAfter(name, '=', value);
    assert field[..|name|] == name && field[|name| + 1..] == value;
  }

  /** `parse_qsl(qs)`: the kept fields of the '&'-separated query string, in order. */
  function ParseQsl(fields: seq<string>): (pairs: seq<(string, string)>)
    ensures |pairs| <= |fields|
    ensures forall i :: 0 <= i < |pairs| ==> |pairs[i].1| > 0
    ensures forall i :: 0 <= i < |fields| && ParseField(fields[i]).Some? ==> ParseField(fields[i]).value in pairs
    ensures forall p :: p in pairs ==> exists i :: 0 <= i < |fields| && ParseField(fields[i]) == Some(p)
  {
    if |fields| == 0 then []
    else
      var rest := ParseQsl(fields[1..]);
      assert forall i :: 1 <= i < |fields| ==> fields[i] == fields[1..][i - 1];
      match ParseField(fields[0])
      case None => rest
      case Some(p) => [p] + rest
  }

  /** The pairs of one field: its own pair if it is kept, none otherwise. */
  lemma ParseQslOne(field: string)
    ensures ParseQsl([field]) == match ParseField(field) case None => [] case Some(p) => [p]
  {
    assert [field][1..] == [];
  }

  /** The pairs keep the order of the fields: the pairs of two runs of
      fields are the pairs of the first run, then those of the second. */
  lemma {:induction false} ParseQslAppend(a: seq<string>, b: seq<string>)
    ensures ParseQsl(a + b) == ParseQsl(a) + ParseQsl(b)
    decreases |a|
  {
    if |a| == 0 {
      assert a + b == b;
    } else {
      assert (a + b)[0] == a[0] && (a + b)[1..] == a[1..] + b;
      ParseQslAppend(a[1..], b);
    }
  }

  /** `parse_qs(qs).get(name, [default])[0]`: the first value given for
      `name`, if any. */
  function FirstValue(pairs: seq<(string, string)>, name: string): (r: Option<string>)
    ensures r.None? <==> forall i :: 0 <= i < |pairs| ==> pairs[i].0 != name
    ensures r.Some? ==> exists i :: 0 <= i < |pairs| && pairs[i] == (name, r.value)
                                    && forall j :: 0 <= j < i ==> pairs[j].0 != name
  {
    if |pairs| == 0 then None
    else if pairs[0].0 == name then Some(pairs[0].1)
    else
      var r := FirstValue(pairs[1..], name);
      if r.Some? then
        var i :| 0 <= i < |pairs[1..]| && pairs[1..][i] == (name, r.value)
                 && forall j :: 0 <= j < i ==> pairs[1..][j].0 != name;
        assert pairs[i + 1] == (name, r.value);
        assert forall j :: 1 <= j < i + 1 ==> pairs[j] == pairs[1..][j - 1];
        r
      else
        assert forall j :: 1 <= j < |pairs| ==> pairs[j] == pairs[1..][j - 1];
        r
  }

  /** The field is kept by `parse_qsl` and its decoded name is `name`. */
  predicate NamesField(field: string, name: string) {
    ParseField(field).Some? && ParseField(field).value.0 == name
  }

  /** With no kept field named `name`, the pairs of `fields` have no value
      for it. */
  lemma {:induction false} FirstValueNone(fields: seq<string>, name: string)
    requires forall i :: 0 <= i < |fields| ==> !NamesField(fields[i], name)
    ensures FirstValue(ParseQsl(fields), name).None?
    decreases |fields|
  {
    if |fields| > 0 {
      var tail := fields[1..];
      assert forall i :: 1 <= i < |fields| ==> fields[i] == tail[i - 1];
      FirstValueNone(tail, name);
      if ParseField(fields[0]).Some? {
        assert ParseQsl(fields)[1..] == ParseQsl(tail);
      }
    }
  }

  /** The first value for `name` among the pairs of `fields` is the value of
      the first field kept under that name. */
  lemma {:induction false} FirstValueAt(fields: seq<string>, name: string, i: nat)
    requires i < |fields| && NamesField(fields[i], name)
    requires forall j :: 0 <= j < i ==> !NamesField(fields[j], name)
    ensures FirstValue(ParseQsl(fields), name) == Some(ParseField(fields[i]).value.1)
    decreases i
  {
    if i > 0 {
      var tail := fields[1..];
      assert forall j :: 0 <= j < i - 1 ==> tail[j] == fields[j + 1];
      FirstValueAt(tail, name, i - 1);
      if ParseField(fields[0]).Some? {
        assert ParseQsl(fields)[1..] == ParseQsl(tail);
      }
    }
  }

  /** `parse_qs(qs).get(name, [default])[0]` on a raw query string: the
      decoded value of the first '&'-separated field kept under `name`, and
      nothing when no field is. */
  function QueryFirst(queryString: string, name: string): (r: Option<string>)
    ensures (forall i :: 0 <= i < |Split(queryString, '&')| ==> !NamesField(Split(queryString, '&')[i], name))
            ==> r.None?
    ensures forall i :: && 0 <= i < |Split(queryString, '&')| && NamesField(Split(queryString, '&')[i], name)
                        && (forall j :: 0 <= j < i ==> !NamesField(Split(queryString, '&')[j], name))
              ==> r == Some(ParseField(Split(queryString, '&')[i]).value.1)
  {
    var fs := Split(queryString, '&');
    var v := FirstValue(ParseQsl(fs), name);
    assert (forall i :: 0 <= i < |fs| ==> !NamesField(fs[i], name)) ==> v.None? by {
      if forall i :: 0 <= i < |fs| ==> !NamesField(fs[i], name) {
        FirstValueNone(fs, name);
      }
    }
    assert forall i :: 0 <= i < |fs| && NamesField(fs[i], name) && (forall j :: 0 <= j < i ==> !NamesField(fs[j], name))
             ==> v == Some(ParseField(fs[i]).value.1) by {
      forall i | 0 <= i < |fs| && NamesField(fs[i], name) && (forall j :: 0 <= j < i ==> !NamesField(fs[j], name))
        ensures v == Some(ParseField(fs[i]).value.1)
      {
        FirstValueAt(fs, name, i);
      }
    }
    v
  }

  /** The reset request: the first `reset_filter` value is exactly "true";
      without one the default "false" applies. */
  function WantsReset(queryString: string): (r: bool)
    ensures r <==> QueryFirst(queryString, "reset_filter") == Some("true")
  {
    QueryFirst(queryString, "reset_filter").GetOr("false") == "true"
  }

  /** Read on the raw query string: a reset is asked for exactly when the
      first field kept under `reset_filter` has the value "true" ('+' read
      as a space), and never when no field is. */
  lemma WantsResetIff(queryString: string, i: nat)
    requires i < |Split(queryString, '&')| && NamesField(Split(queryString, '&')[i], "reset_filter")
    requires forall j :: 0 <= j < i ==> !NamesField(Split(queryString, '&')[j], "reset_filter")
    ensures WantsReset(queryString) <==> ParseField(Split(queryString, '&')[i]).value.1 == "true"
  {
  }

  /** Without a field kept under `reset_filter` there is no reset. */
  lemma NoResetWithoutField(queryString: string)
    requires forall i :: 0 <= i < |Split(queryString, '&')| ==> !NamesField(Split(queryString, '&')[i], "reset_filter")
    ensures !WantsReset(queryString)
  {
  }

  /** A field `name=value` with a non-empty value and neither '=' in the name
      nor '+' anywhere parses to that pair. */
  lemma FieldParses(name: string, value: string)
    requires '=' !in name && '+' !in name && '+' !in value && value != ""
    ensures ParseField(name + "=" + value) == Some((name, value))
  {
    var field := name + "=" + value;
    assert field[|name|] == '=' && field[..|name|] == name;
    assert field[|name| + 1..] == value;
    PlusFree(name);
    PlusFree(value);
  }

  /** A single field `name=value` (no separators, no '+', a non-empty value)
      reads back as that value. */
  lemma SingleFieldReadsBack(name: string, value: string)
    requires '=' !in name && '&' !in name && '+' !in name
    requires '&' !in value && '+' !in value && value != ""
    ensures QueryFirst(name + "=" + value, name) == Some(value)
  {
    var field := name + "=" + value;
    assert '&' !in field;
    SplitPlain(field, '&');
    FieldParses(name, value);
    assert ParseQsl([field]) == [(name, value)];
  }

  /** Replacing an absent character changes nothing. */
  lemma PlusFree(s: string)
    requires '+' !in s
    ensures ReplaceChar(s, '+', ' ') == s
  {
  }

  // ---------------------------------------------------------------------
  // GET

  /** The stored query string and its length as `len()` sees it: a string,
      list or dict has a length; any other stored value has none. */
  function StoredLength(v: Json): (r: Result<nat>)
    ensures v.JStr? ==> r == Ok(|v.s|)
    ensures r.Err? <==> !(v.JStr? || v.JArr? || v.JObj?)
  {
    match v
    case JStr(s) => Ok(|s|)
    case JArr(items) => Ok(|items|)
    case JObj(fields) => Ok(|fields|)
    case _ => Err(TypeError("object has no len()"))
  }

  /** The redirect target of a reset: the bare path, keeping a `sort` value. */
  function ResetUrl(req: Request): (url: string)
    ensures QueryFirst(req.queryString, "sort").None? ==> url == req.path
    ensures QueryFirst(req.queryString, "sort").Some? ==> url == req.path + "?sort=" + QueryFirst(req.queryString, "sort").value
  {
    var sort := QueryFirst(req.queryString, "sort");
    if sort.Some? && sort.value != "" then req.path + "?sort=" + sort.value else req.path
  }

  /** `ListViewTableFilterMixin.get`: the session afterwards and the response. */
  function Get(cfg: Config, req: Request, sd: Session): (r: Result<(Session, Response)>)
    ensures !cfg.persistence ==> r == Ok((sd, Render))
    ensures cfg.persistence && WantsReset(req.queryString) ==>
              r == Ok((sd - {cfg.sessionKey}, Redirect(ResetUrl(req))))
    ensures (cfg.persistence && !WantsReset(req.queryString) && req.queryString != "") ==>
              r == Ok((sd[cfg.sessionKey := JStr(req.queryString)], Render))
  {
    if !cfg.persistence then Ok((sd, Render))
    else
      var stored := if cfg.sessionKey in sd then sd[cfg.sessionKey] else JStr("");
      if WantsReset(req.queryString) then
        Ok((sd - {cfg.sessionKey}, Redirect(ResetUrl(req))))
      else if |req.queryString| > 0 then
        Ok((sd[cfg.sessionKey := JStr(req.queryString)], Render))
      else
        var n :- StoredLength(stored);
        if n > 0 then
          if stored.JStr? then Ok((sd, Redirect(req.path + "?" + stored.s)))
          else Err(TypeError("can only concatenate str to str"))
        else Ok((sd, Render))
  }

  /** A bare GET restores a stored query string by redirecting to it, and
      renders when nothing is stored; the session stays as it was. */
  lemma BareGetRestores(cfg: Config, path: string, sd: Session)
    requires cfg.persistence
    requires cfg.sessionKey !in sd || sd[cfg.sessionKey].JStr?
    ensures var r := Get(cfg, Request(path, ""), sd);
            && r.Ok? && r.value.0 == sd
            && (if cfg.sessionKey in sd && sd[cfg.sessionKey].s != ""
                then r.value.1 == Redirect(path + "?" + sd[cfg.sessionKey].s)
                else r.value.1 == Render)
  {
    assert Split("", '&') == [""];
    assert ParseQsl([""]) == [];
  }

  /** A query string asking for a reset is never stored. */
  lemma ResetNeverStored(cfg: Config, req: Request, sd: Session)
    requires cfg.persistence && WantsReset(req.queryString)
    ensures Get(cfg, req, sd).Ok? && cfg.sessionKey !in Get(cfg, req, sd).value.0
  {
  }

  /** Round trip: after a GET with a non-reset query string, a bare GET in the
      same session redirects back to the path with that query string. */
  lemma FilterRoundTrip(cfg: Config, path: string, q: string, sd: Session)
    requires cfg.persistence && q != "" && !WantsReset(q)
    ensures Get(cfg, Request(path, q), sd).Ok?
    ensures var sd1 := Get(cfg, Request(path, q), sd).value.0;
            Get(cfg, Request(path, ""), sd1) == Ok((sd1, Redirect(path + "?" + q)))
  {
    var sd1 := sd[cfg.sessionKey := JStr(q)];
    BareGetRestores(cfg, path, sd1);
  }

  /** Two kept fields give their two pairs, in order. */
  lemma ParseQslTwo(f1: string, f2: string)
    requires ParseField(f1).Some? && ParseField(f2).Some?
    ensures ParseQsl([f1, f2]) == [ParseField(f1).value, ParseField(f2).value]
  {
    assert [f1, f2][1..] == [f2];
    assert [f2][1..] == [];
  }

  /** A query string of two plain fields parses to its two pairs. */
  lemma TwoFieldsParse(n1: string, v1: string, n2: string, v2: string)
    requires '=' !in n1 && '&' !in n1 && '+' !in n1 && '&' !in v1 && '+' !in v1 && v1 != ""
    requires '=' !in n2 && '&' !in n2 && '+' !in n2 && '&' !in v2 && '+' !in v2 && v2 != ""
    ensures ParseQsl(Split(n1 + "=" + v1 + "&" + n2 + "=" + v2, '&')) == [(n1, v1), (n2, v2)]
  {
    var f1 := n1 + "=" + v1;
    var f2 := n2 + "=" + v2;
    assert n1 + "=" + v1 + "&" + n2 + "=" + v2 == f1 + ['&'] + f2;
    assert '&' !in f1 && '&' !in f2;
    SplitFirst(f1, '&', f2);
    SplitPlain(f2, '&');
    FieldParses(n1, v1);
    FieldParses(n2, v2);
    ParseQslTwo(f1, f2);
  }

  /** A reset with a sort order keeps the sort in the redirect. */
  lemma ResetKeepsSort(cfg: Config, path: string, sort: string, sd: Session)
    requires cfg.persistence && sort != "" && '&' !in sort && '+' !in sort
    ensures Get(cfg, Request(path, "reset_filter" + "=" + "true" + "&" + "sort" + "=" + sort), sd)
            == Ok((sd - {cfg.sessionKey}, Redirect(path + "?sort=" + sort)))
  {
    TwoFieldsParse("reset_filter", "true", "sort", sort);
    var pairs := [("reset_filter", "true"), ("sort", sort)];
    assert "sort" != "reset_filter" by { assert |"sort"| != |"reset_filter"|; }
    assert FirstValue(pairs, "reset_filter") == Some("true");
    assert FirstValue(pairs, "sort") == Some(sort);
  }

  // ---------------------------------------------------------------------
  // POST and the rendered context

  /** `ListViewTableFilterMixin.post` on the decoded JSON body. */
  function Post(cfg: Config, body: Json, sd: Session): (r: Result<(Session, Response)>)
    ensures !cfg.persistence ==>
              r == Ok((sd, JsonResponse(map["status" := JStr("ok"), "filter_expanded" := JNull])))
    ensures cfg.persistence && r.Err? ==> r.error.BadRequest? || r.error.AttributeError?
    ensures (cfg.persistence && body.JObj?) ==>
              (r.Err? <==> FilterExpandedKey !in body.fields || body.fields[FilterExpandedKey] == JNull)
    ensures r.Ok? && cfg.persistence ==>
              && body.JObj? && FilterExpandedKey in body.fields
              && var v := body.fields[FilterExpandedKey];
                 r.value == (sd[FilterExpandedKey := v], JsonResponse(map["status" := JStr("ok"), "filter_expanded" := v]))
  {
    if !cfg.persistence then Ok((sd, JsonResponse(map["status" := JStr("ok"), "filter_expanded" := JNull])))
    else if !body.JObj? then Err(AttributeError("get"))
    else
      var v := if FilterExpandedKey in body.fields then body.fields[FilterExpandedKey] else JNull;
      if v == JNull then Err(BadRequest("filter_expanded not set"))
      else Ok((sd[FilterExpandedKey := v], JsonResponse(map["status" := JStr("ok"), "filter_expanded" := v])))
  }

  /** `vs_filter_expanded` of the list context: the stored flag, False when none. */
  function FilterExpandedContext(sd: Session): (v: Json)
    ensures FilterExpandedKey !in sd ==> v == JBool(false)
    ensures FilterExpandedKey in sd ==> v == sd[FilterExpandedKey]
  {
    if FilterExpandedKey in sd then sd[FilterExpandedKey] else JBool(false)
  }

  /** What a valid POST stores, the next rendering shows. */
  lemma ExpandedRoundTrip(cfg: Config, v: Json, sd: Session)
    requires cfg.persistence && v != JNull
    ensures Post(cfg, JObj(map[FilterExpandedKey := v]), sd).Ok?
    ensures FilterExpandedContext(Post(cfg, JObj(map[FilterExpandedKey := v]), sd).value.0) == v
  {
  }

  /** Storing the expanded flag leaves the stored query string alone, and a
      GET leaves the expanded flag alone unless the two keys coincide. */
  lemma SlotsIndependent(cfg: Config, req: Request, body: Json, sd: Session)
    requires cfg.persistence && cfg.sessionKey != FilterExpandedKey
    ensures Post(cfg, body, sd).Ok? && cfg.sessionKey in sd ==>
              cfg.sessionKey in Post(cfg, body, sd).value.0 && Post(cfg, body, sd).value.0[cfg.sessionKey] == sd[cfg.sessionKey]
    ensures Get(cfg, req, sd).Ok? ==> FilterExpandedContext(Get(cfg, req, sd).value.0) == FilterExpandedContext(sd)
  {
  }
}
