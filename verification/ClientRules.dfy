/** Reading RATE_LIMIT_CLIENTS (clients.py, parse_client_rules): comma separated name[=per_minute]
    entries, malformed ones skipped. What counts as white space, a number or a network is a parameter. */
module ClientRules {
  import opened Basics
  import opened Clients

  datatype Syntax = Syntax(space: char -> bool, number: string -> Option<int>, network: string -> Option<Network>)

  // ---------------------------------------------------------------- strings

  /** `s.split(sep)`: never empty, the empty string splits into one empty part. */
  function Split(s: string, sep: char): (parts: seq<string>)
    ensures |parts| >= 1
  {
    if s == "" then [""]
    else
      var rest := Split(s[1..], sep);
      if s[0] == sep then [""] + rest else [[s[0]] + rest[0]] + rest[1..]
  }

  function Join(parts: seq<string>, sep: char): string
    decreases |parts|
  {
    if parts == [] then "" else if |parts| == 1 then parts[0] else parts[0] + [sep] + Join(parts[1..], sep)
  }

  function StripLeft(x: Syntax, s: string): string {
    if s != "" && x.space(s[0]) then StripLeft(x, s[1..]) else s
  }

  function StripRight(x: Syntax, s: string): string {
    if s != "" && x.space(s[|s| - 1]) then StripRight(x, s[..|s| - 1]) else s
  }

  function Strip(x: Syntax, s: string): string {
    StripRight(x, StripLeft(x, s))
  }

  /** `s.partition("=")`, without the separator. */
  function Before(s: string, sep: char): string {
    if s == "" || s[0] == sep then "" else [s[0]] + Before(s[1..], sep)
  }

  function Behind(s: string, sep: char): string {
    if s == "" then "" else if s[0] == sep then s[1..] else Behind(s[1..], sep)
  }

  ghost predicate Trimmed(x: Syntax, s: string) {
    s != "" ==> !x.space(s[0]) && !x.space(s[|s| - 1])
  }

  lemma {:induction false} SplitAppend(s: string, t: string, sep: char)
    ensures Split(s + [sep] + t, sep) == Split(s, sep) + Split(t, sep)
  {
    var all := s + [sep] + t;
    if s == "" {
      assert all[1..] == t;
    } else {
      assert all[1..] == s[1..] + [sep] + t;
      SplitAppend(s[1..], t, sep);
    }
  }

  lemma {:induction false} SplitWhole(s: string, sep: char)
    requires sep !in s
    ensures Split(s, sep) == [s]
  {
    if s != "" {
      assert s[0] in s;
      SplitWhole(s[1..], sep);
      assert [s[0]] + s[1..] == s;
    }
  }

  lemma {:induction false} SplitParts(s: string, sep: char)
    ensures forall part | part in Split(s, sep) :: sep !in part
  {
    if s != "" {
      SplitParts(s[1..], sep);
      var rest := Split(s[1..], sep);
      assert rest[0] in rest;
      forall part | part in Split(s, sep) ensures sep !in part {
        assert part == "" || part == [s[0]] + rest[0] || part in rest;
      }
    }
  }

  lemma {:induction false} SplitJoin(parts: seq<string>, sep: char)
    requires parts != [] && forall part | part in parts :: sep !in part
    ensures Split(Join(parts, sep), sep) == parts
    decreases |parts|
  {
    assert parts[0] in parts;
    SplitWhole(parts[0], sep);
    if |parts| > 1 {
      assert forall part | part in parts[1..] :: part in parts;
      SplitJoin(parts[1..], sep);
      SplitAppend(parts[0], Join(parts[1..], sep), sep);
    }
  }

  lemma StripTrimmed(x: Syntax, s: string)
    requires Trimmed(x, s)
    ensures Strip(x, s) == s
  {
    assert StripLeft(x, s) == s;
    assert StripRight(x, s) == s;
  }

  lemma {:induction false} StripLeftHolds(x: Syntax, s: string)
    ensures var r := StripLeft(x, s);
            |r| <= |s| && r == s[|s| - |r|..] && (r != "" ==> !x.space(r[0]))
  {
    if s != "" && x.space(s[0]) {
      StripLeftHolds(x, s[1..]);
    }
  }

  lemma {:induction false} StripRightHolds(x: Syntax, s: string)
    ensures var r := StripRight(x, s);
            |r| <= |s| && r == s[..|r|] && (r != "" ==> !x.space(r[|r| - 1]))
  {
    if s != "" && x.space(s[|s| - 1]) {
      StripRightHolds(x, s[..|s| - 1]);
    }
  }

  lemma StripHolds(x: Syntax, s: string)
    ensures Trimmed(x, Strip(x, s))
    ensures forall c | c in Strip(x, s) :: c in s
    ensures Trimmed(x, s) ==> Strip(x, s) == s
  {
    var left, r := StripLeft(x, s), Strip(x, s);
    StripLeftHolds(x, s);
    StripRightHolds(x, left);
    if Trimmed(x, s) {
      StripTrimmed(x, s);
    }
    hide StripLeft, StripRight, Strip;
    assert forall i | 0 <= i < |r| :: r[i] == left[i] && left[i] == s[|s| - |left| + i];
  }

  ghost predicate Blank(x: Syntax, s: string) {
    forall c | c in s :: x.space(c)
  }

  lemma {:induction false} LeftPadding(x: Syntax, pad: string, s: string)
    requires Blank(x, pad)
    ensures StripLeft(x, pad + s) == StripLeft(x, s)
  {
    if pad == "" {
      assert pad + s == s;
    } else {
      assert pad[0] in pad && forall c | c in pad[1..] :: c in pad;
      assert (pad + s)[1..] == pad[1..] + s;
      LeftPadding(x, pad[1..], s);
    }
  }

  lemma {:induction false} RightPadding(x: Syntax, s: string, pad: string)
    requires Blank(x, pad)
    ensures StripRight(x, s + pad) == StripRight(x, s)
  {
    if pad == "" {
      assert s + pad == s;
    } else {
      var n := |pad| - 1;
      assert pad[n] in pad && forall c | c in pad[..n] :: c in pad;
      assert (s + pad)[..|s + pad| - 1] == s + pad[..n];
      RightPadding(x, s, pad[..n]);
    }
  }

  /** Stripping takes away the white space around a text, and nothing else. */
  lemma StripPadded(x: Syntax, before: string, text: string, after: string)
    requires Blank(x, before) && Blank(x, after) && Trimmed(x, text)
    ensures Strip(x, before + text + after) == text
  {
    assert before + text + after == before + (text + after);
    LeftPadding(x, before, text + after);
    if text == "" {
      assert text + after == after && after + "" == after;
      LeftPadding(x, after, "");
    } else {
      assert StripLeft(x, text + after) == text + after;
      RightPadding(x, text, after);
      StripTrimmed(x, text);
    }
  }

  lemma {:induction false} BeforeHolds(s: string, sep: char)
    ensures sep !in Before(s, sep) && forall c | c in Before(s, sep) :: c in s
  {
    if s != "" && s[0] != sep {
      BeforeHolds(s[1..], sep);
    }
  }

  lemma {:induction false} PartitionAppend(s: string, t: string, sep: char)
    requires sep !in s
    ensures Before(s, sep) == s && Behind(s, sep) == ""
    ensures Before(s + [sep] + t, sep) == s && Behind(s + [sep] + t, sep) == t
  {
    if s == "" {
      assert s + [sep] + t == [sep] + t;
    } else {
      assert (s + [sep] + t)[1..] == s[1..] + [sep] + t;
      PartitionAppend(s[1..], t, sep);
    }
  }

  // ---------------------------------------------------------------- entries

  /** One entry, or nothing when it is empty or malformed. */
  function Entry(x: Syntax, raw: string): Option<ClientRule> {
    var entry := Strip(x, raw);
    var name, limitText := Strip(x, Before(entry, '=')), Strip(x, Behind(entry, '='));
    if entry == "" || name == "" then None
    else if limitText == "" then Some(ClientRule(name, None, x.network(name)))
    else
      var limit := x.number(limitText);
      if limit.None? || limit.value <= 0 then None else Some(ClientRule(name, limit, x.network(name)))
  }

  function Entries(x: Syntax, raws: seq<string>): seq<ClientRule> {
    if raws == [] then []
    else (if Entry(x, raws[0]).Some? then [Entry(x, raws[0]).value] else []) + Entries(x, raws[1..])
  }

  function Rules(x: Syntax, spec: string): seq<ClientRule> {
    Entries(x, Split(spec, ','))
  }

  lemma {:induction false} EntriesAppend(x: Syntax, a: seq<string>, b: seq<string>)
    ensures Entries(x, a + b) == Entries(x, a) + Entries(x, b)
  {
    if a == [] {
      assert a + b == b;
    } else {
      assert (a + b)[1..] == a[1..] + b;
      EntriesAppend(x, a[1..], b);
    }
  }

  /** The rules still to come when the loop is at entry i. */
  function Rest(x: Syntax, raws: seq<string>, i: nat): seq<ClientRule>
    requires i <= |raws|
  {
    Entries(x, raws[i..])
  }

  lemma RestIs(x: Syntax, raws: seq<string>)
    ensures Rest(x, raws, 0) == Entries(x, raws) && Rest(x, raws, |raws|) == []
    ensures forall i | 0 <= i < |raws| :: Rest(x, raws, i) ==
              if Entry(x, raws[i]).Some? then [Entry(x, raws[i]).value] + Rest(x, raws, i + 1) else Rest(x, raws, i + 1)
  {
    assert raws[0..] == raws;
    forall i | 0 <= i < |raws| ensures Rest(x, raws, i) ==
        if Entry(x, raws[i]).Some? then [Entry(x, raws[i]).value] + Rest(x, raws, i + 1) else Rest(x, raws, i + 1)
    {
      assert raws[i..][1..] == raws[i + 1..];
    }
  }

  lemma NothingInNothing(x: Syntax)
    ensures Rules(x, "") == []
  {
    assert Entry(x, "").None?;
    assert Split("", ',') == [""];
    assert [""][1..] == [] && Entries(x, []) == [];
  }

  /** Reads the setting; an unset one reads as empty. */
  method ParseClientRules(x: Syntax, spec: Option<string>) returns (rules: seq<ClientRule>)
    ensures rules == if spec.Some? then Rules(x, spec.value) else []
  {
    NothingInNothing(x);
    var raws := Split(if spec.Some? then spec.value else "", ',');
    rules := [];
    RestIs(x, raws);
    hide Split, Strip, Before, Behind, Entries, Rest;
    for i := 0 to |raws|
      invariant rules + Rest(x, raws, i) == Entries(x, raws)
    {
      ghost var e := Entry(x, raws[i]);
      assert e.Some? ==> (rules + [e.value]) + Rest(x, raws, i + 1) == Entries(x, raws);
      var entry := Strip(x, raws[i]);
      if entry == "" { continue; }
      var name, limitText := Strip(x, Before(entry, '=')), Strip(x, Behind(entry, '='));
      if name == "" { continue; }
      var limit: Option<int> := None;
      if limitText != "" {
        limit := x.number(limitText);
        if limit.None? || limit.value <= 0 { continue; }
      }
      rules := rules + [ClientRule(name, limit, x.network(name))];
    }
  }

  // ---------------------------------------------------------------- what the parser promises

  /** A rule the parser can produce. */
  ghost predicate RuleOk(x: Syntax, rule: ClientRule) {
    && rule.name != "" && Trimmed(x, rule.name) && ',' !in rule.name && '=' !in rule.name
    && (rule.maxPerMin.Some? ==> rule.maxPerMin.value >= 1)
    && rule.network == x.network(rule.name)
  }

  lemma EntryOk(x: Syntax, raw: string)
    requires ',' !in raw
    ensures Entry(x, raw).Some? ==> RuleOk(x, Entry(x, raw).value)
  {
    StripHolds(x, raw);
    BeforeHolds(Strip(x, raw), '=');
    StripHolds(x, Before(Strip(x, raw), '='));
  }

  lemma {:induction false} EntriesOk(x: Syntax, raws: seq<string>)
    requires forall raw | raw in raws :: ',' !in raw
    ensures forall rule | rule in Entries(x, raws) :: RuleOk(x, rule)
  {
    if raws != [] {
      assert raws[0] in raws;
      assert forall raw | raw in raws[1..] :: raw in raws;
      EntryOk(x, raws[0]);
      EntriesOk(x, raws[1..]);
    }
  }

  /** Whatever the setting holds, every rule has a name, a limit is positive when there is one, and the
      network depends on the name alone. */
  lemma RulesOk(x: Syntax, spec: string)
    ensures forall rule | rule in Rules(x, spec) :: RuleOk(x, rule)
  {
    SplitParts(spec, ',');
    EntriesOk(x, Split(spec, ','));
  }

  /** An entry never affects the others: a typo in one costs that one only. */
  lemma EntriesAreIndependent(x: Syntax, before: string, entry: string, after: string)
    requires ',' !in entry
    ensures Rules(x, before + "," + entry + "," + after)
            == Rules(x, before) + (if Entry(x, entry).Some? then [Entry(x, entry).value] else []) + Rules(x, after)
  {
    var tail := entry + [','] + after;
    assert before + "," + entry + "," + after == before + [','] + tail;
    SplitAppend(before, tail, ',');
    SplitAppend(entry, after, ',');
    SplitWhole(entry, ',');
    EntriesAppend(x, Split(before, ','), Split(tail, ','));
    EntriesAppend(x, [entry], Split(after, ','));
  }

  /** What an entry with a limit means, whatever white space it is written with: nothing if it has no name, or if
      its limit is not a positive number; without a limit after the sign, the name alone. */
  lemma EntryReads(x: Syntax, a: string, name: string, b: string, c: string, text: string, d: string)
    requires Blank(x, a) && Blank(x, b) && Blank(x, c) && Blank(x, d) && !x.space('=')
    requires Trimmed(x, name) && '=' !in name && Trimmed(x, text)
    ensures var rule := Entry(x, a + name + b + "=" + c + text + d);
            if name == "" then rule == None
            else if text == "" then rule == Some(ClientRule(name, None, x.network(name)))
            else if x.number(text).None? || x.number(text).value < 1 then rule == None
            else rule == Some(ClientRule(name, x.number(text), x.network(name)))
  {
    var left, right := if name == "" then "" else name + b, if text == "" then "" else c + text;
    var front, back := if name == "" then a + b else a, if text == "" then c + d else d;
    Regroup(a, name, b, c, text, d);
    Pieces(x, a, name, b, c, text, d);
    hide Strip, Entry, Blank, Trimmed;
    EntryCore(x, front, left, right, back);
  }

  lemma Pieces(x: Syntax, a: string, name: string, b: string, c: string, text: string, d: string)
    requires Blank(x, a) && Blank(x, b) && Blank(x, c) && Blank(x, d) && !x.space('=')
    requires Trimmed(x, name) && '=' !in name && Trimmed(x, text)
    ensures var left, right := if name == "" then "" else name + b, if text == "" then "" else c + text;
            && Strip(x, left) == name && Strip(x, right) == text && '=' !in left
            && Trimmed(x, left + ['='] + right)
            && Blank(x, if name == "" then a + b else a) && Blank(x, if text == "" then c + d else d)
  {
    var left, right := if name == "" then "" else name + b, if text == "" then "" else c + text;
    StripPadded(x, "", name, b);
    StripPadded(x, c, text, "");
    StripPadded(x, "", "", "");
    assert "" + name + b == name + b && c + text + "" == c + text;
    assert forall e | e in left :: e in name || x.space(e);
    hide Strip;
    RightEnd(c, text);
    LeftEnd(x, name, b);
    CoreTrimmedIf(x, left, right, name, text);
  }

  lemma RightEnd(c: string, text: string)
    ensures text != "" ==> (c + text)[|c + text| - 1] == text[|text| - 1]
  {
  }

  lemma LeftEnd(x: Syntax, name: string, b: string)
    ensures name != "" ==> (name + b)[0] == name[0]
  {
  }

  lemma CoreTrimmedIf(x: Syntax, left: string, right: string, name: string, text: string)
    requires !x.space('=') && Trimmed(x, name) && Trimmed(x, text)
    requires left == "" || (name != "" && left[0] == name[0])
    requires right == "" || (text != "" && right[|right| - 1] == text[|text| - 1])
    ensures Trimmed(x, left + ['='] + right)
  {
    CoreTrimmed(x, left, right);
  }

  lemma CoreTrimmed(x: Syntax, left: string, right: string)
    requires !x.space('=') && (left != "" ==> !x.space(left[0])) && (right != "" ==> !x.space(right[|right| - 1]))
    ensures Trimmed(x, left + ['='] + right)
  {
    var core := left + ['='] + right;
    assert core[0] == if left == "" then '=' else left[0];
    assert core[|core| - 1] == if right == "" then '=' else right[|right| - 1];
  }

  lemma Regroup(a: string, name: string, b: string, c: string, text: string, d: string)
    ensures var left, right := if name == "" then "" else name + b, if text == "" then "" else c + text;
            var front, back := if name == "" then a + b else a, if text == "" then c + d else d;
            a + name + b + "=" + c + text + d == front + (left + ['='] + right) + back
  {
    var raw := a + name + b + "=" + c + text + d;
    if name == "" {
      assert a + name + b == a + b;
      if text == "" { assert raw == (a + b) + ("" + ['='] + "") + (c + d); }
      else { assert raw == (a + b) + ("" + ['='] + (c + text)) + d; }
    } else {
      if text == "" { assert raw == a + ((name + b) + ['='] + "") + (c + d); }
      else { assert raw == a + ((name + b) + ['='] + (c + text)) + d; }
    }
  }

  lemma EntryCore(x: Syntax, front: string, left: string, right: string, back: string)
    requires Blank(x, front) && Blank(x, back) && Trimmed(x, left + ['='] + right) && '=' !in left
    ensures var rule, name, text := Entry(x, front + (left + ['='] + right) + back), Strip(x, left), Strip(x, right);
            if name == "" then rule == None
            else if text == "" then rule == Some(ClientRule(name, None, x.network(name)))
            else if x.number(text).None? || x.number(text).value < 1 then rule == None
            else rule == Some(ClientRule(name, x.number(text), x.network(name)))
  {
    StripPadded(x, front, left + ['='] + right, back);
    PartitionAppend(left, right, '=');
    hide Strip, Before, Behind;
  }

  /** An entry without the sign is a name, if it is not blank. */
  lemma BareEntryReads(x: Syntax, a: string, name: string, b: string)
    requires Blank(x, a) && Blank(x, b) && Trimmed(x, name) && '=' !in name
    ensures Entry(x, a + name + b) == if name == "" then None else Some(ClientRule(name, None, x.network(name)))
  {
    StripPadded(x, a, name, b);
    StripPadded(x, "", name, "");
    StripPadded(x, "", "", "");
    PartitionAppend(name, "", '=');
    assert "" + name + "" == name;
    hide Strip, Before, Behind;
  }

  function Written(show: int -> string, rule: ClientRule): string {
    if rule.maxPerMin.Some? then rule.name + "=" + show(rule.maxPerMin.value) else rule.name
  }

  function WrittenAll(show: int -> string, rules: seq<ClientRule>): (parts: seq<string>)
    ensures |parts| == |rules|
  {
    if rules == [] then [] else [Written(show, rules[0])] + WrittenAll(show, rules[1..])
  }

  /** A way to write the positive numbers that the parser's number syntax reads back. */
  ghost predicate Readable(x: Syntax, show: int -> string) {
    forall n | n >= 1 :: show(n) != "" && ',' !in show(n) && Trimmed(x, show(n)) && x.number(show(n)) == Some(n)
  }

  lemma WrittenReadsBack(x: Syntax, show: int -> string, rule: ClientRule)
    requires Readable(x, show) && RuleOk(x, rule)
    ensures Entry(x, Written(show, rule)) == Some(rule) && ',' !in Written(show, rule)
  {
    var text := if rule.maxPerMin.Some? then show(rule.maxPerMin.value) else "";
    assert rule.maxPerMin.Some? ==> Readable(x, show) && text != "";
    var written := Written(show, rule);
    assert rule.maxPerMin.Some? ==> written[|written| - 1] == text[|text| - 1];
    assert written[0] == rule.name[0];
    StripHolds(x, written);
    PartitionAppend(rule.name, text, '=');
    StripHolds(x, rule.name);
    StripHolds(x, text);
  }

  lemma {:induction false} AllReadBack(x: Syntax, show: int -> string, rules: seq<ClientRule>)
    requires Readable(x, show) && forall rule | rule in rules :: RuleOk(x, rule)
    ensures Entries(x, WrittenAll(show, rules)) == rules
    ensures forall part | part in WrittenAll(show, rules) :: ',' !in part
  {
    if rules != [] {
      assert rules[0] in rules;
      assert forall rule | rule in rules[1..] :: rule in rules;
      WrittenReadsBack(x, show, rules[0]);
      AllReadBack(x, show, rules[1..]);
    }
  }

  /** Round trip: a rule list is read back from its own text exactly when it is one the parser can
      produce. */
  lemma RoundTrip(x: Syntax, show: int -> string, rules: seq<ClientRule>)
    requires Readable(x, show)
    ensures Rules(x, Join(WrittenAll(show, rules), ',')) == rules <==> forall rule | rule in rules :: RuleOk(x, rule)
  {
    RulesOk(x, Join(WrittenAll(show, rules), ','));
    if forall rule | rule in rules :: RuleOk(x, rule) {
      AllReadBack(x, show, rules);
      if rules != [] {
        SplitJoin(WrittenAll(show, rules), ',');
      } else {
        NothingInNothing(x);
      }
    }
  }
}
