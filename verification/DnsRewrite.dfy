/** The one-off rewrite of a dns outbound's legacy keys into rules, and the later repair of a
    numeric query type 0. */
module DnsRewrite {
  import opened Text

  /** A decoded JSON value; numbers are integers here. */
  datatype Json = Null | Bool(b: bool) | Num(n: int) | Str(s: string) | Arr(items: seq<Json>) | Obj(fields: map<string, Json>)

  /** obj[key], with null for what is not there: the source never tells the two apart. */
  function Field(fields: map<string, Json>, key: string): Json {
    if key in fields then fields[key] else Null
  }

  function FoldChar(c: char): char {
    if c == '\U{17F}' then 's' else LowerChar(c)
  }

  /** strings.EqualFold(text, "dns"). */
  predicate IsDns(text: string) {
    |text| == 3 && FoldChar(text[0]) == 'd' && FoldChar(text[1]) == 'n' && FoldChar(text[2]) == 's'
  }

  /** A dns outbound with a settings object. */
  predicate DnsOutbound(ob: Json) {
    && ob.Obj?
    && Field(ob.fields, "protocol").Str? && IsDns(Field(ob.fields, "protocol").s)
    && Field(ob.fields, "settings").Obj?
  }

  // ----- reading the legacy keys

  datatype Mode = Reject | Drop | Skip

  /** What the core resolved: anything but drop and skip means reject. */
  function NonIPQueryMode(value: Json): Mode {
    if !value.Str? then Reject else
      var mode := ToLower(TrimSpace(value.s));
      if mode == "drop" then Drop else if mode == "skip" then Skip else Reject
  }

  /** fmt.Sprint; `nested` prints lists and objects. */
  function Printed(item: Json, nested: Json -> string): string {
    match item
    case Null => "<nil>"
    case Bool(b) => if b then "true" else "false"
    case Num(n) => IntToString(n)
    case Str(s) => s
    case _ => nested(item)
  }

  function QTypeOf(part: string): (r: Option<nat>)
    ensures r.Some? ==> r.value <= 65535
  {
    match ParseInt(TrimSpace(part))
    case None => None
    case Some(n) => if n < 0 || n > 65535 then None else Some(n)
  }

  /** The query types among the first `n` parts, in order. */
  function TypesOf(parts: seq<string>, n: nat): (types: seq<nat>)
    requires n <= |parts|
    ensures forall k :: 0 <= k < |types| ==> types[k] <= 65535
  {
    if n == 0 then [] else
      TypesOf(parts, n - 1) + match QTypeOf(parts[n - 1]) case None => [] case Some(q) => [q]
  }

  function ItemTypes(item: Json, nested: Json -> string): (types: seq<nat>)
    ensures forall k :: 0 <= k < |types| ==> types[k] <= 65535
  {
    var parts := Split(Printed(item, nested), ',');
    TypesOf(parts, |parts|)
  }

  function AllTypes(items: seq<Json>, nested: Json -> string, n: nat): (types: seq<nat>)
    requires n <= |items|
    ensures forall k :: 0 <= k < |types| ==> types[k] <= 65535
  {
    if n == 0 then [] else AllTypes(items, nested, n - 1) + ItemTypes(items[n - 1], nested)
  }

  function BlockItems(value: Json): seq<Json> {
    if value.Arr? then value.items else if value.Null? then [] else [value]
  }

  function BlockTypes(value: Json, nested: Json -> string): (types: seq<nat>)
    ensures forall k :: 0 <= k < |types| ==> types[k] <= 65535
  {
    AllTypes(BlockItems(value), nested, |BlockItems(value)|)
  }

  method LegacyDNSBlockTypes(value: Json, nested: Json -> string) returns (out: seq<nat>)
    ensures out == BlockTypes(value, nested)
  {
    hide Split, Printed, QTypeOf;
    var items := BlockItems(value);
    out := [];
    for i := 0 to |items|
      invariant out == AllTypes(items, nested, i)
    {
      var parts := Split(Printed(items[i], nested), ',');
      ghost var before := out;
      for j := 0 to |parts|
        invariant out == before + TypesOf(parts, j)
      {
        var qType := QTypeOf(parts[j]);
        if qType == None {
          continue;
        }
        out := out + [qType.value];
      }
    }
  }

  // ----- the rules that replace them

  /** Writes a lone type as a number, but never as the number 0. */
  function QTypeValue(types: seq<nat>): Json {
    if |types| == 1 && types[0] != 0 then Num(types[0]) else Str(Join(Numbers(types), ","))
  }

  function Numbers(types: seq<nat>): (parts: seq<string>)
    ensures |parts| == |types|
    ensures forall k :: 0 <= k < |types| ==> parts[k] == NatToString(types[k])
  {
    seq(|types|, k requires 0 <= k < |types| => NatToString(types[k]))
  }

  /** return with rCode 5 for the reject mode, drop otherwise. */
  function Refusal(mode: Mode): map<string, Json> {
    if mode == Reject then map["action" := Str("return"), "rCode" := Num(5)] else map["action" := Str("drop")]
  }

  function Fallback(mode: Mode): Json {
    Obj(if mode == Skip then map["action" := Str("direct")] else Refusal(mode))
  }

  function Hijack(): Json {
    Obj(map["action" := Str("hijack"), "qType" := Str("1,28")])
  }

  function LegacyRules(mode: Mode, types: seq<nat>): seq<Json> {
    (if types == [] then [] else [Obj(Refusal(mode)["qType" := QTypeValue(types)])]) +
    [Hijack(), Fallback(mode)]
  }

  /** The rules of a settings object that has none of its own. */
  function SettingsRules(settings: map<string, Json>, nested: Json -> string): seq<Json> {
    LegacyRules(NonIPQueryMode(Field(settings, "nonIPQuery")), BlockTypes(Field(settings, "blockTypes"), nested))
  }

  predicate HasLegacy(settings: map<string, Json>) {
    Field(settings, "nonIPQuery") != Null || Field(settings, "blockTypes") != Null
  }

  function NewSettings(settings: map<string, Json>, nested: Json -> string): map<string, Json> {
    (if Field(settings, "rules") == Null then settings["rules" := Arr(SettingsRules(settings, nested))] else settings)
    - {"nonIPQuery", "blockTypes"}
  }

  predicate Rewrites(ob: Json) {
    DnsOutbound(ob) && HasLegacy(Field(ob.fields, "settings").fields)
  }

  function Rewritten(ob: Json, nested: Json -> string): Json {
    if !Rewrites(ob) then ob
    else Obj(ob.fields["settings" := Obj(NewSettings(Field(ob.fields, "settings").fields, nested))])
  }

  method RewriteLegacyKeys(outbounds: array<Json>, nested: Json -> string) returns (changed: bool)
    modifies outbounds
    ensures forall k :: 0 <= k < outbounds.Length ==> outbounds[k] == Rewritten(old(outbounds[k]), nested)
    ensures changed <==> exists k :: 0 <= k < outbounds.Length && Rewrites(old(outbounds[k]))
  {
    hide BlockTypes, NonIPQueryMode, LegacyRules, IsDns;
    changed := false;
    for i := 0 to outbounds.Length
      invariant forall k :: 0 <= k < i ==> outbounds[k] == Rewritten(old(outbounds[k]), nested)
      invariant forall k :: i <= k < outbounds.Length ==> outbounds[k] == old(outbounds[k])
      invariant changed <==> exists k :: 0 <= k < i && Rewrites(old(outbounds[k]))
    {
      var ob := outbounds[i];
      if !ob.Obj? {
        continue;
      }
      var proto := Field(ob.fields, "protocol");
      if !(proto.Str? && IsDns(proto.s)) {
        continue;
      }
      if !Field(ob.fields, "settings").Obj? {
        continue;
      }
      var settings := Field(ob.fields, "settings").fields;
      var nonIPQuery, blockTypes := Field(settings, "nonIPQuery"), Field(settings, "blockTypes");
      if nonIPQuery == Null && blockTypes == Null {
        continue;
      }
      if Field(settings, "rules") == Null {
        var types := LegacyDNSBlockTypes(blockTypes, nested);
        settings := settings["rules" := Arr(LegacyRules(NonIPQueryMode(nonIPQuery), types))];
      }
      settings := settings - {"nonIPQuery", "blockTypes"};
      outbounds[i] := Obj(ob.fields["settings" := Obj(settings)]);
      changed := true;
    }
  }

  // ----- what a rule list answers

  datatype Answer = Refused | Dropped | Hijacked | Direct

  ghost function SetOf(types: seq<nat>): set<nat> {
    set q | q in types
  }

  /** The query types a rule names, as the core reads them; None for every query. A missing type
      and the number 0 both name no type at all. */
  ghost function QTypes(v: Json): Option<set<nat>> {
    match v
    case Num(n) => if n <= 0 then None else Some({n})
    case Str(s) => var parts := Split(s, ','); var types := TypesOf(parts, |parts|); Some(SetOf(types))
    case _ => None
  }

  ghost predicate Matches(rule: Json, q: nat) {
    rule.Obj? && var types := QTypes(Field(rule.fields, "qType")); types == None || q in types.value
  }

  ghost function ActionOf(rule: Json): Option<Answer> {
    if !rule.Obj? then None
    else match Field(rule.fields, "action")
      case Str(a) =>
        if a == "return" && Field(rule.fields, "rCode") == Num(5) then Some(Refused)
        else if a == "drop" then Some(Dropped)
        else if a == "hijack" then Some(Hijacked)
        else if a == "direct" then Some(Direct)
        else None
      case _ => None
  }

  ghost function FirstMatch(rules: seq<Json>, q: nat): Option<Answer>
  {
    if rules == [] then None else if Matches(rules[0], q) then ActionOf(rules[0]) else FirstMatch(rules[1..], q)
  }

  // ----- what the legacy keys stood for, told from their values

  /** A comma-separated text mentions the query type. */
  ghost predicate Mentions(text: string, q: nat) {
    q <= 65535 && exists k :: 0 <= k < |Split(text, ',')| && ParseInt(TrimSpace(Split(text, ',')[k])) == Some(q)
  }

  /** One entry of blockTypes blocks it: a number by its value, a text by what it mentions; null
      and booleans block nothing, and what Go prints for a list or an object is taken as text. */
  ghost predicate EntryBlocks(item: Json, nested: Json -> string, q: nat) {
    match item
    case Num(n) => n == q <= 65535
    case Str(t) => Mentions(t, q)
    case Null => false
    case Bool(_) => false
    case _ => Mentions(nested(item), q)
  }

  /** A list blocks what one of its entries does, anything else is an entry of its own. */
  ghost predicate Blocks(value: Json, nested: Json -> string, q: nat) {
    match value
    case Arr(items) => exists i :: 0 <= i < |items| && EntryBlocks(items[i], nested, q)
    case _ => EntryBlocks(value, nested, q)
  }

  /** The answer the mode gives to everything that is neither blocked nor A or AAAA. */
  ghost function ModeAnswer(value: Json): Answer {
    var mode := if value.Str? then ToLower(TrimSpace(value.s)) else "";
    if mode == "drop" then Dropped else if mode == "skip" then Direct else Refused
  }

  /** The policy of a settings object: the blocked types, dropped unless the mode refuses, then the
      hijack of A and AAAA, then the mode's answer. */
  ghost function Policy(settings: map<string, Json>, nested: Json -> string, q: nat): Answer {
    var other := ModeAnswer(Field(settings, "nonIPQuery"));
    if Blocks(Field(settings, "blockTypes"), nested, q) then (if other == Refused then Refused else Dropped)
    else if q == 1 || q == 28 then Hijacked
    else other
  }

  /** The same for a mode and a list of types. */
  ghost function LegacyAnswer(mode: Mode, blocked: seq<nat>, q: nat): Answer {
    if q in blocked then if mode == Reject then Refused else Dropped
    else if q == 1 || q == 28 then Hijacked
    else match mode
      case Reject => Refused
      case Drop => Dropped
      case Skip => Direct
  }

  lemma NumberReads(n: int, q: nat)
    requires q <= 65535
    ensures ',' !in IntToString(n) && (QTypeOf(IntToString(n)) == Some(q) <==> n == q)
  {
    var t := IntToString(n);
    var digits := NatToString(if n < 0 then -n else n);
    assert AllDigits(digits) && NatValue(digits) == if n < 0 then -n else n;
    assert n < 0 ==> t == "-" + digits && t[1..] == digits && t[|t| - 1] == digits[|digits| - 1];
    assert IsDigit(digits[0]) && IsDigit(digits[|digits| - 1]);
    TrimClean(t);
    if -MAX_INT64 - 1 <= n <= MAX_INT64 { ParseIntToString(n); }
  }

  lemma {:induction false} TypesMention(parts: seq<string>, n: nat, q: nat)
    requires n <= |parts|
    ensures q in TypesOf(parts, n) <==> q <= 65535 && exists k :: 0 <= k < n && ParseInt(TrimSpace(parts[k])) == Some(q)
    decreases n
  {
    hide TrimSpace, ParseInt;
    if n > 0 { TypesMention(parts, n - 1, q); }
  }

  lemma NoComma(text: string)
    requires ',' !in text
    ensures Split(text, ',') == [text]
  {
  }

  /** Texts that are no numbers. */
  lemma WordsBlockNothing(q: nat)
    ensures !Mentions("<nil>", q) && !Mentions("true", q) && !Mentions("false", q)
  {
    forall t | t in ["<nil>", "true", "false"] ensures !Mentions(t, q) {
      WordBlocksNothing(t, q);
    }
  }

  lemma WordBlocksNothing(t: string, q: nat)
    requires t in ["<nil>", "true", "false"]
    ensures !Mentions(t, q)
  {
    hide Split;
    NoComma(t);
    assert t[0] in "<tf" && t[|t| - 1] in ">e";
    TrimClean(t);
    assert !IsDigit(t[0]);
  }

  lemma EntryMeans(item: Json, nested: Json -> string, q: nat)
    ensures q in ItemTypes(item, nested) <==> EntryBlocks(item, nested, q)
  {
    hide Split, TrimSpace, ParseInt, IntToString;
    var text := Printed(item, nested);
    TypesMention(Split(text, ','), |Split(text, ',')|, q);
    assert q in ItemTypes(item, nested) <==> Mentions(text, q);
    match item
    case Num(n) =>
      if q <= 65535 {
        NumberReads(n, q);
        NoComma(text);
      }
    case Null => WordsBlockNothing(q);
    case Bool(_) => WordsBlockNothing(q);
    case _ =>
  }

  lemma {:induction false} ItemsMean(items: seq<Json>, nested: Json -> string, n: nat, q: nat)
    requires n <= |items|
    ensures q in AllTypes(items, nested, n) <==> exists i :: 0 <= i < n && EntryBlocks(items[i], nested, q)
    decreases n
  {
    hide ItemTypes, EntryBlocks;
    if n > 0 {
      ItemsMean(items, nested, n - 1, q);
      EntryMeans(items[n - 1], nested, q);
    }
  }

  /** The blocked types are those the value blocks. */
  lemma BlockTypesMean(value: Json, nested: Json -> string, q: nat)
    ensures q in BlockTypes(value, nested) <==> Blocks(value, nested, q)
  {
    hide AllTypes, ItemTypes;
    ItemsMean(BlockItems(value), nested, |BlockItems(value)|, q);
    if !value.Arr? && !value.Null? { assert BlockItems(value)[0] == value; }
  }

  lemma ModeMeans(value: Json)
    ensures ModeAnswer(value) == match NonIPQueryMode(value) case Reject => Refused case Drop => Dropped case Skip => Direct
  {
    hide TrimSpace, ToLower;
  }

  /** The text is "dns" up to case, the long s included. */
  ghost predicate DnsText(text: string) {
    |text| == 3 && text[0] in {'d', 'D'} && text[1] in {'n', 'N'} && text[2] in {'s', 'S', '\U{17F}'}
  }

  /** What is rewritten: an outbound whose protocol is dns, with a settings object that has one of
      the two legacy keys and not null under it. */
  lemma RewritesIff(ob: Json)
    ensures Rewrites(ob) <==>
      && ob.Obj? && Field(ob.fields, "protocol").Str? && DnsText(Field(ob.fields, "protocol").s) && Field(ob.fields, "settings").Obj?
      && var settings := Field(ob.fields, "settings").fields;
         ("nonIPQuery" in settings && settings["nonIPQuery"] != Null) || ("blockTypes" in settings && settings["blockTypes"] != Null)
  {
  }

  ghost predicate Answers(rules: Json, q: nat, answer: Answer) {
    rules.Arr? && FirstMatch(rules.items, q) == Some(answer)
  }

  lemma ReadType(q: nat)
    requires q <= 65535
    ensures QTypeOf(NatToString(q)) == Some(q) && ',' !in NatToString(q)
  {
    var t := NatToString(q);
    assert IsDigit(t[0]) && IsDigit(t[|t| - 1]);
    TrimClean(t);
    ParseIntToString(q);
  }

  lemma {:induction false} ReadTypes(types: seq<nat>, n: nat)
    requires n <= |types| && forall k :: 0 <= k < |types| ==> types[k] <= 65535
    ensures TypesOf(Numbers(types), n) == types[..n]
  {
    hide QTypeOf, NatToString;
    if n > 0 {
      ReadTypes(types, n - 1);
      ReadType(types[n - 1]);
      assert types[..n] == types[..n - 1] + [types[n - 1]];
    }
  }

  /** The encoded types read back as the same set, the lone 0 included. */
  lemma QTypeValueReads(types: seq<nat>)
    requires types != [] && forall k :: 0 <= k < |types| ==> types[k] <= 65535
    ensures QTypes(QTypeValue(types)) == Some(SetOf(types))
  {
    hide QTypeOf, NatToString, Split;
    if |types| == 1 && types[0] != 0 {
      assert types == [types[0]];
      assert SetOf(types) == {types[0]};
    } else {
      forall p | p in Numbers(types) ensures ',' !in p {
        var k :| 0 <= k < |types| && Numbers(types)[k] == p;
        ReadType(types[k]);
      }
      SplitJoin(Numbers(types), ',');
      ReadTypes(types, |types|);
      assert types[..|types|] == types;
    }
  }

  /** The hijack rule's own encoding. */
  lemma HijackReads()
    ensures QTypes(Str("1,28")) == Some({1, 28})
  {
    hide Split, TypesOf;
    assert NatToString(1) == "1";
    assert NatToString(28) == "28" by { assert NatToString(2) == "2"; }
    var types: seq<nat> := [1, 28];
    assert Numbers(types) == ["1", "28"];
    assert Join(["1", "28"], ",") == "1,28";
    QTypeValueReads(types);
    assert SetOf(types) == {1, 28};
  }

  lemma UnblockedAnswer(mode: Mode, q: nat)
    ensures FirstMatch([Hijack(), Fallback(mode)], q) == Some(LegacyAnswer(mode, [], q))
  {
    hide QTypes;
    HijackReads();
    NoTypes();
    assert [Hijack(), Fallback(mode)][1..] == [Fallback(mode)];
  }

  /** The emitted rules answer every query type as the legacy policy did. */
  lemma RulesKeepPolicy(mode: Mode, types: seq<nat>, q: nat)
    requires forall k :: 0 <= k < |types| ==> types[k] <= 65535
    ensures FirstMatch(LegacyRules(mode, types), q) == Some(LegacyAnswer(mode, types, q))
  {
    hide QTypes, QTypeValue, Hijack, Fallback;
    UnblockedAnswer(mode, q);
    var rules := LegacyRules(mode, types);
    if types == [] {
      assert rules == [Hijack(), Fallback(mode)];
    } else {
      QTypeValueReads(types);
      assert rules[1..] == [Hijack(), Fallback(mode)];
      assert rules[0] == Obj(Refusal(mode)["qType" := QTypeValue(types)]);
      assert ActionOf(rules[0]) == Some(if mode == Reject then Refused else Dropped);
      assert Matches(rules[0], q) <==> q in types;
    }
  }

  lemma NoTypes()
    ensures QTypes(Null) == None
  {
  }

  /** The same for a whole outbound: where it had no rules of its own, the rewritten one answers
      as its legacy keys did, and has those keys no more; where it had rules, they are kept. */
  lemma RewriteKeepsPolicy(ob: Json, nested: Json -> string, q: nat)
    requires Rewrites(ob)
    ensures Rewritten(ob, nested).Obj? && Field(Rewritten(ob, nested).fields, "settings").Obj?
    ensures var before, after := Field(ob.fields, "settings").fields, Field(Rewritten(ob, nested).fields, "settings").fields;
      && "nonIPQuery" !in after && "blockTypes" !in after
      && (forall k :: k !in {"nonIPQuery", "blockTypes", "rules"} ==> Field(after, k) == Field(before, k))
      && (Field(before, "rules") != Null ==> Field(after, "rules") == Field(before, "rules"))
      && (Field(before, "rules") == Null ==> Answers(Field(after, "rules"), q, Policy(before, nested, q)))
  {
    hide LegacyRules, FirstMatch, LegacyAnswer, Policy, NonIPQueryMode, BlockTypes, IsDns;
    var settings := Field(ob.fields, "settings").fields;
    RulesKeepPolicy(NonIPQueryMode(Field(settings, "nonIPQuery")), BlockTypes(Field(settings, "blockTypes"), nested), q);
    PolicyIs(settings, nested, q);
  }

  lemma PolicyIs(settings: map<string, Json>, nested: Json -> string, q: nat)
    ensures Policy(settings, nested, q) ==
      LegacyAnswer(NonIPQueryMode(Field(settings, "nonIPQuery")), BlockTypes(Field(settings, "blockTypes"), nested), q)
  {
    hide NonIPQueryMode, BlockTypes, Blocks, ModeAnswer;
    ModeMeans(Field(settings, "nonIPQuery"));
    BlockTypesMean(Field(settings, "blockTypes"), nested, q);
  }

  /** Rewriting again changes nothing, and what is not a dns outbound with legacy keys is left
      as it was. */
  lemma RewriteIdempotent(ob: Json, nested: Json -> string)
    ensures !Rewrites(Rewritten(ob, nested)) && Rewritten(Rewritten(ob, nested), nested) == Rewritten(ob, nested)
    ensures !DnsOutbound(ob) ==> Rewritten(ob, nested) == ob
  {
    hide LegacyRules, NonIPQueryMode, BlockTypes, IsDns;
  }

  // ----- the repair of a numeric 0

  predicate ZeroRule(rule: Json) {
    rule.Obj? && Field(rule.fields, "qType") == Num(0)
  }

  function RepairedRule(rule: Json): Json {
    if ZeroRule(rule) then Obj(rule.fields["qType" := Str("0")]) else rule
  }

  function RepairedRules(rules: seq<Json>): (r: seq<Json>)
    ensures |r| == |rules|
    ensures forall k :: 0 <= k < |rules| ==> r[k] == RepairedRule(rules[k])
  {
    seq(|rules|, k requires 0 <= k < |rules| => RepairedRule(rules[k]))
  }

  predicate Repairs(ob: Json) {
    && DnsOutbound(ob)
    && Field(Field(ob.fields, "settings").fields, "rules").Arr?
    && exists rule :: rule in Field(Field(ob.fields, "settings").fields, "rules").items && ZeroRule(rule)
  }

  function Repaired(ob: Json): Json {
    if !DnsOutbound(ob) then ob else
      var settings := Field(ob.fields, "settings").fields;
      if !Field(settings, "rules").Arr? then ob
      else Obj(ob.fields["settings" := Obj(settings["rules" := Arr(RepairedRules(Field(settings, "rules").items))])])
  }

  /** The inner loop, on the decoded rule list. */
  method RepairRules(rules: array<Json>) returns (changed: bool)
    modifies rules
    ensures rules[..] == RepairedRules(old(rules[..]))
    ensures changed <==> exists rule :: rule in old(rules[..]) && ZeroRule(rule)
  {
    changed := false;
    for i := 0 to rules.Length
      invariant forall k :: 0 <= k < i ==> rules[k] == RepairedRule(old(rules[k]))
      invariant forall k :: i <= k < rules.Length ==> rules[k] == old(rules[k])
      invariant changed <==> exists k :: 0 <= k < i && ZeroRule(old(rules[k]))
    {
      var rule := rules[i];
      if rule.Obj? && Field(rule.fields, "qType") == Num(0) {
        rules[i] := Obj(rule.fields["qType" := Str("0")]);
        changed := true;
      }
    }
    if changed {
      ghost var k :| 0 <= k < rules.Length && ZeroRule(old(rules[k]));
      assert old(rules[..])[k] in old(rules[..]);
    }
  }

  method RepairQTypeZero(outbounds: array<Json>) returns (changed: bool)
    modifies outbounds
    ensures forall k :: 0 <= k < outbounds.Length ==> outbounds[k] == Repaired(old(outbounds[k]))
    ensures changed <==> exists k :: 0 <= k < outbounds.Length && Repairs(old(outbounds[k]))
  {
    hide IsDns, RepairedRule, ZeroRule;
    changed := false;
    for i := 0 to outbounds.Length
      invariant forall k :: 0 <= k < i ==> outbounds[k] == Repaired(old(outbounds[k]))
      invariant forall k :: i <= k < outbounds.Length ==> outbounds[k] == old(outbounds[k])
      invariant changed <==> exists k :: 0 <= k < i && Repairs(old(outbounds[k]))
    {
      var ob := outbounds[i];
      if !DnsOutbound(ob) {
        continue;
      }
      var settings := Field(ob.fields, "settings").fields;
      if !Field(settings, "rules").Arr? {
        continue;
      }
      var items := Field(settings, "rules").items;
      var rules := new Json[|items|](k requires 0 <= k < |items| => items[k]);
      assert rules[..] == items;
      var hit := RepairRules(rules);
      outbounds[i] := Obj(ob.fields["settings" := Obj(settings["rules" := Arr(rules[..])])]);
      changed := changed || hit;
    }
  }

  /** The repair makes exactly the numeric zeros mean query type 0 instead of every query; all
      other rules name what they named. */
  lemma RepairMeans(rule: Json)
    requires rule.Obj?
    ensures RepairedRule(rule).Obj?
    ensures ZeroRule(rule) ==> QTypes(Field(rule.fields, "qType")) == None
    ensures ZeroRule(rule) ==> QTypes(Field(RepairedRule(rule).fields, "qType")) == Some({0})
    ensures !ZeroRule(rule) ==> RepairedRule(rule) == rule
    ensures ActionOf(RepairedRule(rule)) == ActionOf(rule)
  {
    hide Split, TypesOf;
    assert NatToString(0) == "0";
    assert Numbers([0]) == [NatToString(0)] == ["0"];
    assert Join(["0"], ",") == "0";
    var zero: seq<nat> := [0];
    QTypeValueReads(zero);
    assert SetOf(zero) == {0};
  }

  /** Rules the rewrite emits never need the repair. */
  lemma GeneratedNeedNoRepair(mode: Mode, types: seq<nat>)
    ensures RepairedRules(LegacyRules(mode, types)) == LegacyRules(mode, types)
  {
    hide NatToString, Join;
    var rules := LegacyRules(mode, types);
    forall k | 0 <= k < |rules| ensures !ZeroRule(rules[k]) {
    }
  }

  lemma SameField(fields: map<string, Json>, key: string)
    requires key in fields
    ensures fields[key := fields[key]] == fields
  {
  }

  lemma SetTwice(fields: map<string, Json>, key: string, v: Json)
    ensures fields[key := v][key := v] == fields[key := v]
  {
  }

  lemma RepairIdempotent(ob: Json)
    ensures Repaired(Repaired(ob)) == Repaired(ob) && !Repairs(Repaired(ob))
    ensures !DnsOutbound(ob) ==> Repaired(ob) == ob
    ensures !Repairs(ob) ==> Repaired(ob) == ob
  {
    hide IsDns;
    if DnsOutbound(ob) && Field(Field(ob.fields, "settings").fields, "rules").Arr? {
      var settings := Field(ob.fields, "settings").fields;
      var items := Field(settings, "rules").items;
      var once := RepairedRules(items);
      assert RepairedRules(once) == once;
      assert !Repairs(ob) ==> once == items;
      assert forall k :: 0 <= k < |once| ==> !ZeroRule(once[k]);
      SameField(settings, "rules");
      SameField(ob.fields, "settings");
      SetTwice(settings, "rules", Arr(once));
      SetTwice(ob.fields, "settings", Obj(settings["rules" := Arr(once)]));
    }
  }
}
