/** URL path fragments (crud_views/lib/viewset/path_regs.py): the five
    primary-key regular expressions, kept both as the source's pattern text
    and as a small regular-expression term whose full-match language is
    characterised by plain character-class predicates, and the named-group
    builders `get_path_pk` / `get_path`. */
module PathRegs {
  import opened Common

  // The pattern texts exactly as the source spells them.
  const INT: string := "\\d+"
  const HEX: string := "[0-9a-z]+"
  const UUID: string := "[0-9a-f]{8}-[0-9a-f]{4}-4[0-9a-f]{3}-[89ab][0-9a-f]{3}-[0-9a-f]{12}"
  const KEY: string := "[a-z_]+"
  const STR: string := "[A-Za-z0-9_\\-]+"

  /** A character range `lo-hi` inside a bracket expression. */
  datatype Range = Range(lo: char, hi: char)

  datatype Count = Exactly(n: nat) | OneOrMore

  /** The regular-expression subset the patterns use: a chain of bracket
      expressions, each repeated `{n}` times or `+`. */
  datatype Regex = End | Then(cls: seq<Range>, count: Count, rest: Regex)

  predicate InClass(cls: seq<Range>, c: char) {
    exists i | 0 <= i < |cls| :: cls[i].lo <= c <= cls[i].hi
  }

  predicate AllIn(cls: seq<Range>, s: string) {
    forall k | 0 <= k < |s| :: InClass(cls, s[k])
  }

  /** Full-match semantics (what a route group anchors between its neighbours). */
  predicate Matches(re: Regex, s: string)
    decreases re
  {
    match re
    case End => s == ""
    case Then(cls, Exactly(n), rest) => n <= |s| && AllIn(cls, s[..n]) && Matches(rest, s[n..])
    case Then(cls, OneOrMore, rest) =>
      exists k | 1 <= k <= |s| :: AllIn(cls, s[..k]) && Matches(rest, s[k..])
  }

  function Lit(c: char, rest: Regex): Regex {
    Then([Range(c, c)], Exactly(1), rest)
  }

  const Digits: seq<Range> := [Range('0', '9')]
  const LowerHex: seq<Range> := [Range('0', '9'), Range('a', 'f')]

  /** The languages of INT, HEX, UUID, KEY and STR. */
  const IntRegex: Regex := Then(Digits, OneOrMore, End)
  const HexRegex: Regex := Then([Range('0', '9'), Range('a', 'z')], OneOrMore, End)
  const UuidRegex: Regex := Then(LowerHex, Exactly(8), Lit('-', UuidGroup2))
  const UuidGroup2: Regex := Then(LowerHex, Exactly(4), Lit('-', UuidGroup3))
  const UuidGroup3: Regex := Lit('4', Then(LowerHex, Exactly(3), Lit('-', UuidGroup4)))
  const UuidGroup4: Regex := Then([Range('8', '9'), Range('a', 'b')], Exactly(1), UuidGroup4Tail)
  const UuidGroup5: Regex := Then(LowerHex, Exactly(12), End)
  const KeyRegex: Regex := Then([Range('a', 'z'), Range('_', '_')], OneOrMore, End)
  const StrRegex: Regex :=
    Then([Range('A', 'Z'), Range('a', 'z'), Range('0', '9'), Range('_', '_'), Range('-', '-')], OneOrMore, End)

  // Character-class predicates.
  predicate IsDigit(c: char) { '0' <= c <= '9' }
  predicate IsLowerAlnum(c: char) { '0' <= c <= '9' || 'a' <= c <= 'z' }
  predicate IsLowerHexDigit(c: char) { '0' <= c <= '9' || 'a' <= c <= 'f' }
  predicate IsKeyChar(c: char) { 'a' <= c <= 'z' || c == '_' }
  predicate IsStrChar(c: char) { 'A' <= c <= 'Z' || 'a' <= c <= 'z' || '0' <= c <= '9' || c == '_' || c == '-' }

  predicate IsHexRun(s: string, i: nat, j: nat)
    requires i <= j <= |s|
  {
    forall k | i <= k < j :: IsLowerHexDigit(s[k])
  }

  /** 8-4-4-4-12 lowercase hex, version nibble 4, variant nibble 8, 9, a or b. */
  predicate IsUuidShape(s: string) {
    && |s| == 36
    && s[8] == '-' && s[13] == '-' && s[18] == '-' && s[23] == '-'
    && s[14] == '4'
    && (s[19] == '8' || s[19] == '9' || s[19] == 'a' || s[19] == 'b')
    && IsHexRun(s, 0, 8) && IsHexRun(s, 9, 13) && IsHexRun(s, 15, 18)
    && IsHexRun(s, 20, 23) && IsHexRun(s, 24, 36)
  }

  /** A one-piece `[...]+` pattern matches exactly the non-empty strings over its class. */
  lemma PlusLanguage(cls: seq<Range>, s: string)
    ensures Matches(Then(cls, OneOrMore, End), s) <==> |s| > 0 && AllIn(cls, s)
  {
    if |s| > 0 && AllIn(cls, s) {
      assert s[..|s|] == s;
      assert Matches(End, s[|s|..]);
    }
    if Matches(Then(cls, OneOrMore, End), s) {
      var k :| 1 <= k <= |s| && AllIn(cls, s[..k]) && Matches(End, s[k..]);
      assert k == |s|;
      assert s[..k] == s;
    }
  }

  /** INT accepts exactly the non-empty strings of decimal digits. */
  lemma IntLanguage(s: string)
    ensures Matches(IntRegex, s) <==> |s| > 0 && forall k | 0 <= k < |s| :: IsDigit(s[k])
  {
    PlusLanguage(Digits, s);
    assert forall c :: InClass(Digits, c) <==> IsDigit(c) by {
      forall c ensures InClass(Digits, c) <==> IsDigit(c) {
        if IsDigit(c) { assert Digits[0].lo <= c <= Digits[0].hi; }
      }
    }
  }

  /** HEX accepts every non-empty string over digits and ALL lowercase letters a-z. */
  lemma HexLanguage(s: string)
    ensures Matches(HexRegex, s) <==> |s| > 0 && forall k | 0 <= k < |s| :: IsLowerAlnum(s[k])
  {
    var cls := [Range('0', '9'), Range('a', 'z')];
    PlusLanguage(cls, s);
    assert forall c :: InClass(cls, c) <==> IsLowerAlnum(c) by {
      forall c ensures InClass(cls, c) <==> IsLowerAlnum(c) {
        if '0' <= c <= '9' { assert cls[0].lo <= c <= cls[0].hi; }
        if 'a' <= c <= 'z' { assert cls[1].lo <= c <= cls[1].hi; }
      }
    }
  }

  /** So HEX is wider than hexadecimal: "xyz" is accepted. */
  lemma HexAcceptsNonHexLetters()
    ensures Matches(HexRegex, "xyz")
    ensures !IsLowerHexDigit('x')
  {
    HexLanguage("xyz");
  }

  /** KEY accepts exactly the non-empty strings over a-z and underscore. */
  lemma KeyLanguage(s: string)
    ensures Matches(KeyRegex, s) <==> |s| > 0 && forall k | 0 <= k < |s| :: IsKeyChar(s[k])
  {
    var cls := [Range('a', 'z'), Range('_', '_')];
    PlusLanguage(cls, s);
    assert forall c :: InClass(cls, c) <==> IsKeyChar(c) by {
      forall c ensures InClass(cls, c) <==> IsKeyChar(c) {
        if 'a' <= c <= 'z' { assert cls[0].lo <= c <= cls[0].hi; }
        if c == '_' { assert cls[1].lo <= c <= cls[1].hi; }
      }
    }
  }

  /** STR accepts exactly the non-empty strings over A-Z, a-z, 0-9, underscore and hyphen. */
  lemma StrLanguage(s: string)
    ensures Matches(StrRegex, s) <==> |s| > 0 && forall k | 0 <= k < |s| :: IsStrChar(s[k])
  {
    var cls := [Range('A', 'Z'), Range('a', 'z'), Range('0', '9'), Range('_', '_'), Range('-', '-')];
    PlusLanguage(cls, s);
    assert forall c :: InClass(cls, c) <==> IsStrChar(c) by {
      forall c ensures InClass(cls, c) <==> IsStrChar(c) {
        if 'A' <= c <= 'Z' { assert cls[0].lo <= c <= cls[0].hi; }
        if 'a' <= c <= 'z' { assert cls[1].lo <= c <= cls[1].hi; }
        if '0' <= c <= '9' { assert cls[2].lo <= c <= cls[2].hi; }
        if c == '_' { assert cls[3].lo <= c <= cls[3].hi; }
        if c == '-' { assert cls[4].lo <= c <= cls[4].hi; }
      }
    }
  }

  /** Every string KEY accepts is also accepted by STR, but not conversely. */
  lemma KeyWithinStr(s: string)
    ensures Matches(KeyRegex, s) ==> Matches(StrRegex, s)
    ensures Matches(StrRegex, "A-1") && !Matches(KeyRegex, "A-1")
  {
    KeyLanguage(s);
    StrLanguage(s);
    KeyLanguage("A-1");
    StrLanguage("A-1");
    assert !IsKeyChar("A-1"[0]);
    assert forall k | 0 <= k < 3 :: IsStrChar("A-1"[k]);
  }

  lemma HexRunClass(s: string)
    ensures AllIn(LowerHex, s) <==> forall k | 0 <= k < |s| :: IsLowerHexDigit(s[k])
  {
    assert forall c :: InClass(LowerHex, c) <==> IsLowerHexDigit(c) by {
      forall c ensures InClass(LowerHex, c) <==> IsLowerHexDigit(c) {
        if '0' <= c <= '9' { assert LowerHex[0].lo <= c <= LowerHex[0].hi; }
        if 'a' <= c <= 'f' { assert LowerHex[1].lo <= c <= LowerHex[1].hi; }
      }
    }
  }

  /** A chain made of fixed-width pieces only, and the width it matches. */
  predicate IsFixed(re: Regex) {
    match re
    case End => true
    case Then(_, count, rest) => count.Exactly? && IsFixed(rest)
  }

  function Width(re: Regex): nat
    requires IsFixed(re)
  {
    match re
    case End => 0
    case Then(_, count, rest) => count.n + Width(rest)
  }

  lemma {:induction false} FixedLength(re: Regex, s: string)
    requires IsFixed(re) && Matches(re, s)
    ensures |s| == Width(re)
  {
    match re
    case End =>
    case Then(cls, Exactly(n), rest) => FixedLength(rest, s[n..]);
  }

  lemma LitClass(c: char, d: char)
    ensures InClass([Range(c, c)], d) <==> c == d
  {
    if c == d { assert [Range(c, c)][0].lo <= d <= [Range(c, c)][0].hi; }
  }

  lemma HexRunSlice(s: string, i: nat, j: nat)
    requires i <= j <= |s|
    ensures AllIn(LowerHex, s[i..j]) <==> IsHexRun(s, i, j)
  {
    HexRunClass(s[i..j]);
    assert forall k | 0 <= k < j - i :: s[i..j][k] == s[i + k];
  }

  lemma VariantClass(c: char)
    ensures InClass([Range('8', '9'), Range('a', 'b')], c) <==> (c == '8' || c == '9' || c == 'a' || c == 'b')
  {
    var variant := [Range('8', '9'), Range('a', 'b')];
    if c == 'a' || c == 'b' { assert variant[1].lo <= c <= variant[1].hi; }
    if c == '8' || c == '9' { assert variant[0].lo <= c <= variant[0].hi; }
  }

  /** `[0-9a-f]{12}` */
  lemma Group5Language(t: string)
    ensures Matches(UuidGroup5, t) <==> |t| == 12 && IsHexRun(t, 0, 12)
  {
    if |t| >= 12 {
      HexRunSlice(t, 0, 12);
      assert t[..12] == t[0..12];
    }
  }

  /** One literal character, then `rest`. */
  lemma LitStep(c: char, rest: Regex, t: string)
    ensures Matches(Lit(c, rest), t) <==> |t| >= 1 && t[0] == c && Matches(rest, t[1..])
  {
    if |t| >= 1 {
      LitClass(c, t[0]);
      assert t[..1] == [t[0]];
    }
  }

  /** `[0-9a-f]{n}`, then `rest`. */
  lemma HexStep(n: nat, rest: Regex, t: string)
    ensures Matches(Then(LowerHex, Exactly(n), rest), t) <==> n <= |t| && IsHexRun(t, 0, n) && Matches(rest, t[n..])
  {
    if n <= |t| {
      HexRunSlice(t, 0, n);
      assert t[..n] == t[0..n];
    }
  }

  lemma ShiftHexRun(s: string, d: nat, i: nat, j: nat)
    requires d <= |s| && i <= j <= |s| - d
    ensures IsHexRun(s[d..], i, j) <==> IsHexRun(s, d + i, d + j)
  {
    assert forall k | i <= k < j :: s[d..][k] == s[d + k];
  }

  const UuidGroup4Tail: Regex := Then(LowerHex, Exactly(3), Lit('-', UuidGroup5))

  /** `[0-9a-f]{3}-[0-9a-f]{12}` */
  lemma Group4TailLanguage(u: string)
    ensures Matches(UuidGroup4Tail, u) <==>
      |u| == 16 && IsHexRun(u, 0, 3) && u[3] == '-' && IsHexRun(u, 4, 16)
  {
    HexStep(3, Lit('-', UuidGroup5), u);
    if |u| < 3 {
      return;
    }
    LitStep('-', UuidGroup5, u[3..]);
    if |u| < 4 {
      return;
    }
    assert u[3..][1..] == u[4..];
    Group5Language(u[4..]);
    if |u| == 16 {
      ShiftHexRun(u, 4, 0, 12);
    }
  }

  /** One character of a class, then `rest`. */
  lemma OneCharStep(cls: seq<Range>, rest: Regex, t: string)
    ensures Matches(Then(cls, Exactly(1), rest), t) <==> |t| >= 1 && InClass(cls, t[0]) && Matches(rest, t[1..])
  {
    if |t| >= 1 {
      assert t[..1] == [t[0]];
    }
  }

  /** `[89ab][0-9a-f]{3}-[0-9a-f]{12}` */
  lemma Group4Language(t: string)
    ensures Matches(UuidGroup4, t) <==>
      |t| == 17 && (t[0] == '8' || t[0] == '9' || t[0] == 'a' || t[0] == 'b')
      && IsHexRun(t, 1, 4) && t[4] == '-' && IsHexRun(t, 5, 17)
  {
    OneCharStep([Range('8', '9'), Range('a', 'b')], UuidGroup4Tail, t);
    if |t| < 1 {
      return;
    }
    VariantClass(t[0]);
    Group4TailLanguage(t[1..]);
    if |t| == 17 {
      ShiftHexRun(t, 1, 0, 3);
      ShiftHexRun(t, 1, 4, 16);
    }
  }

  /** `4[0-9a-f]{3}-` followed by group 4 */
  lemma Group3Language(t: string)
    ensures Matches(UuidGroup3, t) <==>
      |t| >= 5 && t[0] == '4' && IsHexRun(t, 1, 4) && t[4] == '-' && Matches(UuidGroup4, t[5..])
  {
    LitStep('4', Then(LowerHex, Exactly(3), Lit('-', UuidGroup4)), t);
    if |t| < 1 {
      return;
    }
    var t1 := t[1..];
    HexStep(3, Lit('-', UuidGroup4), t1);
    if |t1| < 4 {
      return;
    }
    ShiftHexRun(t, 1, 0, 3);
    LitStep('-', UuidGroup4, t1[3..]);
    assert t1[3..][1..] == t[5..];
  }

  /** `[0-9a-f]{4}-` followed by group 3 */
  lemma Group2Language(t: string)
    ensures Matches(UuidGroup2, t) <==>
      |t| >= 5 && IsHexRun(t, 0, 4) && t[4] == '-' && Matches(UuidGroup3, t[5..])
  {
    HexStep(4, Lit('-', UuidGroup3), t);
    if |t| < 4 {
      return;
    }
    LitStep('-', UuidGroup3, t[4..]);
    if |t| >= 5 {
      assert t[4..][1..] == t[5..];
    }
  }

  /** UUID accepts exactly the version-4-shaped lowercase UUID strings. */
  lemma UuidLanguage(s: string)
    ensures Matches(UuidRegex, s) <==> IsUuidShape(s)
  {
    if |s| < 9 {
      return;
    }
    HexStep(8, Lit('-', UuidGroup2), s);
    LitStep('-', UuidGroup2, s[8..]);
    assert s[8..][1..] == s[9..];
    var t2 := s[9..];
    Group2Language(t2);
    if |t2| < 5 {
      return;
    }
    var t3 := t2[5..];
    assert t3 == s[14..];
    Group3Language(t3);
    if |t3| < 5 {
      return;
    }
    var t4 := t3[5..];
    assert t4 == s[19..];
    Group4Language(t4);
    if |s| == 36 {
      ShiftHexRun(s, 9, 0, 4);
      ShiftHexRun(s, 14, 1, 4);
      ShiftHexRun(s, 19, 1, 4);
      ShiftHexRun(s, 19, 5, 17);
    }
  }

  /** `get_path_pk(name, reg)`: the named capture group `(?P<name>reg)`. */
  function GetPathPk(name: string, reg: string): (r: string)
    ensures |r| == |name| + |reg| + 6
    ensures r[..4] == "(?P<" && r[|r| - 1] == ')'
  {
    "(?P<" + name + ">" + reg + ")"
  }

  /** `get_path` builds the very same group as `get_path_pk`. */
  function GetPath(name: string, reg: string): (r: string)
    ensures r == GetPathPk(name, reg)
  {
    "(?P<" + name + ">" + reg + ")"
  }

  /** Reads a named group back: the group name ends at the first '>'. */
  function ParseNamedGroup(r: string): Option<(string, string)> {
    if |r| < 6 || r[..4] != "(?P<" || r[|r| - 1] != ')' then None
    else
      match IndexOf(r[4..|r| - 1], '>')
      case None => None
      case Some(j) => Some((r[4..4 + j], r[4 + j + 1..|r| - 1]))
  }

  /** Round trip: a name free of '>' and any pattern are recovered from the group. */
  lemma NamedGroupRoundTrip(name: string, reg: string)
    requires '>' !in name
    ensures ParseNamedGroup(GetPathPk(name, reg)) == Some((name, reg))
  {
    var r := GetPathPk(name, reg);
    var body := r[4..|r| - 1];
    assert body == name + ">" + reg;
    assert body[|name|] == '>';
    assert body[..|name|] == name;
    assert forall i | 0 <= i < |name| :: body[i] != '>';
    var j := IndexOf(body, '>');
    assert j.Some?;
    assert j.value <= |name|;
    assert r[4..4 + |name|] == name;
    assert r[4 + |name| + 1..|r| - 1] == reg;
  }

  /** And conversely: whatever parses as a group is rebuilt exactly by `get_path_pk`. */
  lemma NamedGroupRebuild(r: string)
    requires ParseNamedGroup(r).Some?
    ensures GetPathPk(ParseNamedGroup(r).value.0, ParseNamedGroup(r).value.1) == r
    ensures '>' !in ParseNamedGroup(r).value.0
  {
    var j := IndexOf(r[4..|r| - 1], '>').value;
    assert r[4..|r| - 1][..j] == r[4..4 + j];
    assert r == r[..4] + r[4..4 + j] + [r[4 + j]] + r[4 + j + 1..|r| - 1] + [r[|r| - 1]];
  }
}
