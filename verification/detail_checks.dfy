/** The configuration checks of `DetailView` (crud_views/lib/views/detail.py):
    the structural validation of `cv_property_display`, a list of property
    groups, each a `PropertyGroupConfig` or a dict with a "title" and a list
    of "properties", each property a str, a dict or a `PropertyConfig`.

    The attribute's value is a small Python value datatype; the checks are
    the sequence of `(id, passed, position)` the generator yields, the
    position being the indices its message names. */
module DetailChecks {

  /** The Python values `cv_property_display` can hold, as far as the checks
      tell them apart. */
  datatype PyValue =
    | PNone
    | PStr(s: string)
    | PList(items: seq<PyValue>)
    | PDict(entries: map<string, PyValue>)
    | GroupConfig        // a PropertyGroupConfig instance
    | PropertyConfig     // a PropertyConfig instance
    | POther             // any other object

  /** One yielded check: its id without the "viewset." prefix, whether its
      expression held, and the group / property index its message names. */
  datatype Check = Check(id: string, passed: bool, at: seq<nat>)

  /** A `DetailView` subclass: only its `cv_property_display` matters here. */
  datatype DetailClass = DetailClass(display: PyValue)

  predicate IsDictWith(v: PyValue, key: string) {
    v.PDict? && key in v.entries
  }

  /** `isinstance(prop, (str, dict, PropertyConfig))`. */
  predicate PropertyLike(v: PyValue) {
    v.PStr? || v.PDict? || v.PropertyConfig?
  }

  /** The E245 checks of the properties of group `i`, from index `j` on. */
  function PropertyChecks(i: nat, props: seq<PyValue>, j: nat): (cs: seq<Check>)
    ensures |cs| == |props|
    ensures forall k :: 0 <= k < |props| ==> cs[k] == Check("E245", PropertyLike(props[k]), [i, j + k])
  {
    if |props| == 0 then []
    else [Check("E245", PropertyLike(props[0]), [i, j])] + PropertyChecks(i, props[1..], j + 1)
  }

  /** The checks of group `i`: nothing for a `PropertyGroupConfig`; otherwise
      E242 and E243, then E244 and the E245s when it is a dict with "properties". */
  function GroupChecks(i: nat, g: PyValue): (cs: seq<Check>)
    ensures cs == [] <==> g.GroupConfig?
    ensures forall k :: 0 <= k < |cs| ==> |cs[k].at| >= 1 && cs[k].at[0] == i
  {
    if g.GroupConfig? then []
    else
      [Check("E242", IsDictWith(g, "title"), [i]), Check("E243", IsDictWith(g, "properties"), [i])]
      + if IsDictWith(g, "properties") then
          var props := g.entries["properties"];
          [Check("E244", props.PList?, [i])] + (if props.PList? then PropertyChecks(i, props.items, 0) else [])
        else []
  }

  /** The checks of the groups `gs`, the first at index `i`. */
  function GroupsChecks(gs: seq<PyValue>, i: nat): (cs: seq<Check>)
    ensures cs == [] <==> forall k :: 0 <= k < |gs| ==> gs[k].GroupConfig?
    ensures forall k :: 0 <= k < |cs| ==> |cs[k].at| >= 1 && i <= cs[k].at[0] < i + |gs|
    decreases |gs|
  {
    if |gs| == 0 then []
    else
      assert forall k :: 1 <= k < |gs| ==> gs[1..][k - 1] == gs[k];
      GroupChecks(i, gs[0]) + GroupsChecks(gs[1..], i + 1)
  }

  /** `DetailView.checks()` after the inherited ones: E240, then E241 and the
      per-group checks when the display is set. */
  function DisplayChecks(c: DetailClass): (cs: seq<Check>)
    ensures |cs| >= 1 && cs[0] == Check("E240", !c.display.PNone?, [])
    ensures c.display.PNone? <==> |cs| == 1
    ensures !c.display.PNone? ==> cs[1] == Check("E241", c.display.PList?, [])
    ensures !c.display.PList? ==> |cs| <= 2
  {
    var pd := c.display;
    [Check("E240", !pd.PNone?, [])]
    + if pd.PNone? then []
      else [Check("E241", pd.PList?, [])] + (if pd.PList? then GroupsChecks(pd.items, 0) else [])
  }

  /** Every check yielded passes. */
  predicate AllPass(cs: seq<Check>) {
    forall k :: 0 <= k < |cs| ==> cs[k].passed
  }

  /** A well-formed group: a `PropertyGroupConfig`, or a dict with a title
      and a list of str / dict / `PropertyConfig` properties. */
  predicate WellFormedGroup(g: PyValue) {
    || g.GroupConfig?
    || (&& IsDictWith(g, "title") && IsDictWith(g, "properties")
        && g.entries["properties"].PList?
        && forall k :: 0 <= k < |g.entries["properties"].items| ==> PropertyLike(g.entries["properties"].items[k]))
  }

  /** A well-formed display: a list of well-formed groups. */
  predicate WellFormed(pd: PyValue) {
    pd.PList? && forall i :: 0 <= i < |pd.items| ==> WellFormedGroup(pd.items[i])
  }

  lemma AllPassConcat(a: seq<Check>, b: seq<Check>)
    ensures AllPass(a + b) <==> AllPass(a) && AllPass(b)
  {
    if AllPass(a) && AllPass(b) {
      forall k | 0 <= k < |a + b|
        ensures (a + b)[k].passed
      {
        if k >= |a| {
          assert (a + b)[k] == b[k - |a|];
        }
      }
    }
    if AllPass(a + b) {
      forall k | 0 <= k < |a|
        ensures a[k].passed
      {
        assert (a + b)[k] == a[k];
      }
      forall k | 0 <= k < |b|
        ensures b[k].passed
      {
        assert (a + b)[|a| + k] == b[k];
      }
    }
  }

  lemma GroupPassesIff(i: nat, g: PyValue)
    ensures AllPass(GroupChecks(i, g)) <==> WellFormedGroup(g)
  {
    if !g.GroupConfig? {
      var head := [Check("E242", IsDictWith(g, "title"), [i]), Check("E243", IsDictWith(g, "properties"), [i])];
      if IsDictWith(g, "properties") {
        var props := g.entries["properties"];
        var tail := if props.PList? then PropertyChecks(i, props.items, 0) else [];
        assert GroupChecks(i, g) == head + ([Check("E244", props.PList?, [i])] + tail);
        AllPassConcat(head, [Check("E244", props.PList?, [i])] + tail);
        AllPassConcat([Check("E244", props.PList?, [i])], tail);
        assert AllPass(head) <==> IsDictWith(g, "title") by {
          assert head[0].passed == IsDictWith(g, "title") && head[1].passed;
        }
        assert [Check("E244", props.PList?, [i])][0].passed == props.PList?;
        if props.PList? {
          assert AllPass(tail) <==> forall k :: 0 <= k < |props.items| ==> PropertyLike(props.items[k]);
        }
      } else {
        assert GroupChecks(i, g) == head + [];
        assert !GroupChecks(i, g)[1].passed;
      }
    }
  }

  lemma {:induction false} GroupsPassIff(gs: seq<PyValue>, i: nat)
    ensures AllPass(GroupsChecks(gs, i)) <==> forall k :: 0 <= k < |gs| ==> WellFormedGroup(gs[k])
    decreases |gs|
  {
    if |gs| > 0 {
      GroupsPassIff(gs[1..], i + 1);
      GroupPassesIff(i, gs[0]);
      AllPassConcat(GroupChecks(i, gs[0]), GroupsChecks(gs[1..], i + 1));
      assert forall k :: 1 <= k < |gs| ==> gs[k] == gs[1..][k - 1];
    }
  }

  /** Every structural check passes exactly when the display is well formed. */
  lemma PassesIffWellFormed(c: DetailClass)
    ensures AllPass(DisplayChecks(c)) <==> WellFormed(c.display)
  {
    var pd := c.display;
    var cs := DisplayChecks(c);
    if pd.PList? {
      AllPassConcat([Check("E240", true, [])], [Check("E241", true, [])] + GroupsChecks(pd.items, 0));
      AllPassConcat([Check("E241", true, [])], GroupsChecks(pd.items, 0));
      GroupsPassIff(pd.items, 0);
    } else {
      assert !cs[|cs| - 1].passed;
    }
  }

  /** The check ids differ in their last digit. */
  lemma DistinctIds()
    ensures "E240" != "E245" && "E241" != "E245" && "E242" != "E245" && "E243" != "E245" && "E244" != "E245"
    ensures "E240" != "E244" && "E241" != "E244" && "E242" != "E244" && "E243" != "E244"
  {
    assert "E240"[3] == '0' && "E241"[3] == '1' && "E242"[3] == '2' && "E243"[3] == '3';
    assert "E244"[3] == '4' && "E245"[3] == '5';
  }

  /** The number of checks with a given id. */
  function CountId(cs: seq<Check>, id: string): nat {
    if |cs| == 0 then 0 else (if cs[0].id == id then 1 else 0) + CountId(cs[1..], id)
  }

  lemma {:induction false} CountIdConcat(a: seq<Check>, b: seq<Check>, id: string)
    ensures CountId(a + b, id) == CountId(a, id) + CountId(b, id)
    decreases |a|
  {
    if |a| == 0 {
      assert a + b == b;
    } else {
      assert (a + b)[0] == a[0];
      assert (a + b)[1..] == a[1..] + b;
      CountIdConcat(a[1..], b, id);
    }
  }

  lemma {:induction false} PropertyChecksCount(i: nat, props: seq<PyValue>, j: nat)
    ensures CountId(PropertyChecks(i, props, j), "E245") == |props|
    decreases |props|
  {
    if |props| > 0 {
      PropertyChecksCount(i, props[1..], j + 1);
    }
  }

  /** The number of properties of a group that gets E245 checks. */
  function PropertyCount(g: PyValue): nat {
    if !g.GroupConfig? && IsDictWith(g, "properties") && g.entries["properties"].PList?
    then |g.entries["properties"].items| else 0
  }

  function TotalProperties(gs: seq<PyValue>): nat {
    if |gs| == 0 then 0 else PropertyCount(gs[0]) + TotalProperties(gs[1..])
  }

  lemma GroupE245Count(i: nat, g: PyValue)
    ensures CountId(GroupChecks(i, g), "E245") == PropertyCount(g)
  {
    if !g.GroupConfig? {
      var head := [Check("E242", IsDictWith(g, "title"), [i]), Check("E243", IsDictWith(g, "properties"), [i])];
      DistinctIds();
      assert CountId(head, "E245") == 0 by {
        assert head[1..][1..] == [];
        assert CountId(head[1..], "E245") == 0;
      }
      if IsDictWith(g, "properties") {
        var props := g.entries["properties"];
        var tail := if props.PList? then PropertyChecks(i, props.items, 0) else [];
        CountIdConcat(head, [Check("E244", props.PList?, [i])] + tail, "E245");
        CountIdConcat([Check("E244", props.PList?, [i])], tail, "E245");
        if props.PList? {
          PropertyChecksCount(i, props.items, 0);
        }
      } else {
        assert GroupChecks(i, g) == head + [];
      }
    }
  }

  lemma {:induction false} GroupsE245Count(gs: seq<PyValue>, i: nat)
    ensures CountId(GroupsChecks(gs, i), "E245") == TotalProperties(gs)
    decreases |gs|
  {
    if |gs| > 0 {
      GroupsE245Count(gs[1..], i + 1);
      GroupE245Count(i, gs[0]);
      CountIdConcat(GroupChecks(i, gs[0]), GroupsChecks(gs[1..], i + 1), "E245");
    }
  }

  /** Exactly one E245 check per element of each list-valued "properties" of
      a dict group; none at all for an unset or non-list display. */
  lemma E245PerProperty(c: DetailClass)
    ensures CountId(DisplayChecks(c), "E245") == if c.display.PList? then TotalProperties(c.display.items) else 0
  {
    var pd := c.display;
    if pd.PList? {
      CountIdConcat([Check("E240", true, [])], [Check("E241", true, [])] + GroupsChecks(pd.items, 0), "E245");
      CountIdConcat([Check("E241", true, [])], GroupsChecks(pd.items, 0), "E245");
      GroupsE245Count(pd.items, 0);
    } else if !pd.PNone? {
      DistinctIds();
      var cs := DisplayChecks(c);
      assert cs == [Check("E240", true, []), Check("E241", false, [])];
      assert cs[1..][1..] == [];
      assert CountId(cs[1..], "E245") == 0;
    }
  }

  /** A property group config yields no checks; any other group gets E242 and
      E243, which a non-dict fails both of. */
  lemma GroupHead(i: nat, g: PyValue)
    ensures g.GroupConfig? ==> GroupChecks(i, g) == []
    ensures !g.GroupConfig? ==>
              && |GroupChecks(i, g)| >= 2
              && GroupChecks(i, g)[0] == Check("E242", g.PDict? && "title" in g.entries, [i])
              && GroupChecks(i, g)[1] == Check("E243", g.PDict? && "properties" in g.entries, [i])
    ensures !g.PDict? ==> |GroupChecks(i, g)| <= 2
  {
  }

  /** E244 is emitted for a dict group with "properties" only, and passes iff
      that value is a list. */
  lemma GroupE244(i: nat, g: PyValue)
    ensures IsDictWith(g, "properties") ==>
              && |GroupChecks(i, g)| >= 3
              && GroupChecks(i, g)[2] == Check("E244", g.entries["properties"].PList?, [i])
    ensures !IsDictWith(g, "properties") ==> CountId(GroupChecks(i, g), "E244") == 0
  {
    if !IsDictWith(g, "properties") && !g.GroupConfig? {
      DistinctIds();
      var cs := GroupChecks(i, g);
      assert |cs| == 2;
      assert cs[1..][1..] == [];
      assert CountId(cs[1..], "E244") == 0;
    }
  }
}
