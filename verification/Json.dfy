/** JSON values and their compact text, as `serde_json::Value` keeps and prints them:
    object members stay sorted by key. Numbers are natural. */
module Json {
  import opened Wrappers
  import opened Text

  datatype Value =
    | Null
    | Bool(b: bool)
    | Number(n: nat)
    | String(s: string)
    | Array(items: seq<Value>)
    | Object(members: seq<Member>)

  datatype Member = Member(key: string, value: Value)

  // ---------------------------------------------------------------------------
  // Reading and updating members

  predicate KeyLess(a: string, b: string) {
    b != "" && (a == "" || a[0] < b[0] || (a[0] == b[0] && KeyLess(a[1..], b[1..])))
  }

  function Find(ms: seq<Member>, key: string): Option<Value> {
    if ms == [] then None else if ms[0].key == key then Some(ms[0].value) else Find(ms[1..], key)
  }

  /** A new key comes before the first larger one. */
  predicate GoesFirst(ms: seq<Member>, key: string) {
    ms == [] || (Find(ms, key) == None && KeyLess(key, ms[0].key))
  }

  function Insert(ms: seq<Member>, key: string, value: Value): seq<Member> {
    if GoesFirst(ms, key) then [Member(key, value)] + ms
    else if ms[0].key == key then [Member(key, value)] + ms[1..]
    else [ms[0]] + Insert(ms[1..], key, value)
  }

  /** `value.get(key)` */
  function Get(j: Value, key: string): Option<Value> {
    if j.Object? then Find(j.members, key) else None
  }

  /** `value[key]`, which reads null where there is nothing. */
  function Field(j: Value, key: string): Value {
    match Get(j, key)
    case Some(v) => v
    case None => Null
  }

  /** `value[index]`, which reads null where there is nothing. */
  function Item(j: Value, index: nat): Value {
    if j.Array? && index < |j.items| then j.items[index] else Null
  }

  /** `value[key] = v` on an object. */
  function Set(j: Value, key: string, v: Value): Value
    requires j.Object?
  {
    Object(Insert(j.members, key, v))
  }

  lemma {:induction false} FindInsert(ms: seq<Member>, key: string, v: Value, other: string)
    ensures Find(Insert(ms, key, v), other) == if other == key then Some(v) else Find(ms, other)
  {
    if !GoesFirst(ms, key) && ms[0].key != key {
      FindInsert(ms[1..], key, v, other);
    }
  }

  lemma {:induction false} InsertInsert(ms: seq<Member>, key: string, v: Value, w: Value)
    ensures Insert(Insert(ms, key, v), key, w) == Insert(ms, key, w)
  {
    FindInsert(ms, key, v, key);
    if GoesFirst(ms, key) {
      assert Insert(ms, key, v)[1..] == ms;
    } else if ms[0].key == key {
      assert Insert(ms, key, v)[1..] == ms[1..];
    } else {
      InsertInsert(ms[1..], key, v, w);
      assert Insert(ms, key, v)[1..] == Insert(ms[1..], key, v);
    }
  }

  lemma {:induction false} InsertSame(ms: seq<Member>, key: string)
    requires Find(ms, key).Some?
    ensures Insert(ms, key, Find(ms, key).value) == ms
  {
    if ms[0].key != key {
      InsertSame(ms[1..], key);
    }
  }

  /** Updating a member that is there commutes with updating another. */
  lemma {:induction false} InsertsCommute(ms: seq<Member>, key: string, v: Value, other: string, w: Value)
    requires key != other && Find(ms, other).Some?
    ensures Insert(Insert(ms, key, v), other, w) == Insert(Insert(ms, other, w), key, v)
  {
    FindInsert(ms, other, w, key);
    FindInsert(ms, key, v, other);
    var a, b := Insert(ms, key, v), Insert(ms, other, w);
    if GoesFirst(ms, key) {
      assert a[1..] == ms;
      assert GoesFirst(b, key);
    } else if ms[0].key == key {
      assert a[1..] == ms[1..];
      assert b[1..] == Insert(ms[1..], other, w);
    } else if ms[0].key == other {
      assert a[1..] == Insert(ms[1..], key, v);
      assert b[1..] == ms[1..];
    } else {
      InsertsCommute(ms[1..], key, v, other, w);
      assert a[1..] == Insert(ms[1..], key, v);
      assert b[1..] == Insert(ms[1..], other, w);
    }
  }

  /** What a member update changes, what a later update undoes, and the update that does nothing. */
  lemma SetLaws(j: Value, key: string, v: Value, w: Value, other: string)
    requires j.Object?
    ensures Get(Set(j, key, v), other) == if other == key then Some(v) else Get(j, other)
    ensures Set(Set(j, key, v), key, w) == Set(j, key, w)
    ensures Get(j, key) == Some(v) ==> Set(j, key, v) == j
  {
    FindInsert(j.members, key, v, other);
    InsertInsert(j.members, key, v, w);
    if Get(j, key) == Some(v) {
      InsertSame(j.members, key);
    }
  }

  // ---------------------------------------------------------------------------
  // Text

  function EscapeChar(c: char): string {
    if c == '\"' then "\\\""
    else if c == '\\' then "\\\\"
    else if c == 8 as char then "\\b"
    else if c == 9 as char then "\\t"
    else if c == 10 as char then "\\n"
    else if c == 12 as char then "\\f"
    else if c == 13 as char then "\\r"
    else if c < 32 as char then "\\u00" + [HEX_DIGITS[c as nat / 16], HEX_DIGITS[c as nat % 16]]
    else [c]
  }

  function Escape(s: string): string {
    if s == "" then "" else EscapeChar(s[0]) + Escape(s[1..])
  }

  function Quote(s: string): string {
    "\"" + Escape(s) + "\""
  }

  /** `value.to_string()` */
  function Print(j: Value): string
    decreases j, 1
  {
    match j
    case Null => "null"
    case Bool(b) => if b then "true" else "false"
    case Number(n) => Decimal(n)
    case String(s) => Quote(s)
    case Array(items) => "[" + PrintItems(items) + "]"
    case Object(members) => "{" + PrintMembers(members) + "}"
  }

  function PrintItems(items: seq<Value>): string
    decreases items, 0
  {
    if items == [] then ""
    else if |items| == 1 then Print(items[0])
    else Print(items[0]) + "," + PrintItems(items[1..])
  }

  function PrintMember(m: Member): string
    decreases m, 2
  {
    Quote(m.key) + ":" + Print(m.value)
  }

  function PrintMembers(ms: seq<Member>): string
    decreases ms, 0
  {
    if ms == [] then ""
    else if |ms| == 1 then PrintMember(ms[0])
    else PrintMember(ms[0]) + "," + PrintMembers(ms[1..])
  }

  // ---------------------------------------------------------------------------
  // Parts of a value appear in its text

  lemma {:induction false} ItemInText(items: seq<Value>, i: nat)
    requires i < |items|
    ensures Contains(PrintItems(items), Print(items[i]))
    decreases items
  {
    var text := PrintItems(items);
    if i == 0 {
      assert OccursAt(text, Print(items[0]), 0);
    } else {
      ItemInText(items[1..], i - 1);
      ContainsInContext(Print(items[0]) + ",", PrintItems(items[1..]), "", Print(items[i]));
      assert Print(items[0]) + "," + PrintItems(items[1..]) + "" == text;
    }
  }

  lemma {:induction false} FoundMember(ms: seq<Member>, key: string) returns (i: nat)
    requires Find(ms, key).Some?
    ensures i < |ms| && ms[i] == Member(key, Find(ms, key).value)
  {
    if ms[0].key == key {
      i := 0;
    } else {
      i := FoundMember(ms[1..], key);
      i := i + 1;
    }
  }

  lemma {:induction false} WholeMemberInText(ms: seq<Member>, i: nat)
    requires i < |ms|
    ensures Contains(PrintMembers(ms), PrintMember(ms[i]))
    decreases ms
  {
    hide PrintMember;
    var text := PrintMembers(ms);
    if i == 0 {
      assert OccursAt(text, PrintMember(ms[0]), 0);
    } else {
      WholeMemberInText(ms[1..], i - 1);
      ContainsInContext(PrintMember(ms[0]) + ",", PrintMembers(ms[1..]), "", PrintMember(ms[i]));
      assert PrintMember(ms[0]) + "," + PrintMembers(ms[1..]) + "" == text;
    }
  }

  lemma PartsInMember(m: Member)
    ensures Contains(PrintMember(m), Print(m.value))
    ensures Contains(PrintMember(m), Escape(m.key))
  {
    hide Print, Escape;
    var text := PrintMember(m);
    assert text[|Quote(m.key)| + 1..] == Print(m.value);
    assert OccursAt(text, Print(m.value), |Quote(m.key)| + 1);
    assert text[1..1 + |Escape(m.key)|] == Escape(m.key);
    assert OccursAt(text, Escape(m.key), 1);
  }

  lemma MemberInText(ms: seq<Member>, key: string)
    requires Find(ms, key).Some?
    ensures Contains(PrintMembers(ms), Print(Find(ms, key).value))
    ensures Contains(PrintMembers(ms), Escape(key))
  {
    hide PrintMembers, PrintMember, Print, Escape, Contains;
    var i := FoundMember(ms, key);
    WholeMemberInText(ms, i);
    PartsInMember(ms[i]);
    ContainsTransitive(PrintMembers(ms), PrintMember(ms[i]), Print(ms[i].value));
    ContainsTransitive(PrintMembers(ms), PrintMember(ms[i]), Escape(key));
  }

  /** `tx[key][index]`, when it is there, appears in the text of `tx`. */
  lemma PathInText(tx: Value, key: string, index: nat)
    requires Field(tx, key).Array? && index < |Field(tx, key).items|
    ensures Contains(Print(tx), Print(Item(Field(tx, key), index)))
  {
    var list := Field(tx, key);
    MemberInText(tx.members, key);
    ContainsInContext("{", PrintMembers(tx.members), "}", Print(list));
    ItemInText(list.items, index);
    ContainsInContext("[", PrintItems(list.items), "]", Print(Item(list, index)));
    ContainsTransitive(Print(tx), Print(list), Print(Item(list, index)));
  }

  // ---------------------------------------------------------------------------
  // Quotation marks in printed values only ever touch structure

  predicate QuotesEscaped(s: string) {
    forall i :: 0 <= i < |s| && s[i] == '\"' ==> i > 0 && s[i - 1] == '\\'
  }

  lemma EscapedAppend(a: string, b: string)
    requires QuotesEscaped(a) && QuotesEscaped(b)
    ensures QuotesEscaped(a + b)
  {
    forall i | 0 <= i < |a + b| && (a + b)[i] == '\"'
      ensures i > 0 && (a + b)[i - 1] == '\\'
    {
      if i >= |a| {
        assert b[i - |a|] == '\"';
        assert b[i - |a| - 1] == (a + b)[i - 1];
      }
    }
  }

  lemma {:induction false} EscapeSafe(s: string)
    ensures QuotesEscaped(Escape(s))
  {
    if s != "" {
      EscapeSafe(s[1..]);
      EscapedAppend(EscapeChar(s[0]), Escape(s[1..]));
    }
  }

  lemma QuoteIsSafe(s: string)
    ensures QuoteSafe(Quote(s))
  {
    EscapeSafe(s);
    forall i | 0 <= i < |Quote(s)| && Quote(s)[i] == '\"'
      ensures i == 0 || i == |Quote(s)| - 1 || IsJoint(Quote(s)[i - 1])
    {
      if 0 < i < |Quote(s)| - 1 {
        assert Escape(s)[i - 1] == '\"';
        assert Quote(s)[i - 1] == Escape(s)[i - 2];
      }
    }
  }

  lemma {:induction false} PrintIsSafe(j: Value)
    ensures QuoteSafe(Print(j))
    decreases j, 1
  {
    hide Quote, Decimal, PrintItems, PrintMembers;
    match j
    case Null =>
    case Bool(b) =>
    case Number(n) => DecimalShape(n);
    case String(s) => QuoteIsSafe(s);
    case Array(items) =>
      PrintItemsIsSafe(items);
      QuoteSafeJoin("", '[', PrintItems(items));
      QuoteSafeJoin("[" + PrintItems(items), ']', "");
      assert "" + ['['] + PrintItems(items) == "[" + PrintItems(items);
      assert "[" + PrintItems(items) + [']'] + "" == Print(j);
    case Object(ms) =>
      PrintMembersIsSafe(ms);
      QuoteSafeJoin("", '{', PrintMembers(ms));
      QuoteSafeJoin("{" + PrintMembers(ms), '}', "");
      assert "" + ['{'] + PrintMembers(ms) == "{" + PrintMembers(ms);
      assert "{" + PrintMembers(ms) + ['}'] + "" == Print(j);
  }

  lemma {:induction false} PrintItemsIsSafe(items: seq<Value>)
    ensures QuoteSafe(PrintItems(items))
    decreases items, 0
  {
    if items != [] {
      PrintIsSafe(items[0]);
      if |items| > 1 {
        PrintItemsIsSafe(items[1..]);
        QuoteSafeJoin(Print(items[0]), ',', PrintItems(items[1..]));
      }
    }
  }

  lemma {:induction false} PrintMembersIsSafe(ms: seq<Member>)
    ensures QuoteSafe(PrintMembers(ms))
    decreases ms, 0
  {
    if ms != [] {
      QuoteIsSafe(ms[0].key);
      PrintIsSafe(ms[0].value);
      QuoteSafeJoin(Quote(ms[0].key), ':', Print(ms[0].value));
      if |ms| > 1 {
        PrintMembersIsSafe(ms[1..]);
        QuoteSafeJoin(PrintMember(ms[0]), ',', PrintMembers(ms[1..]));
      }
    }
  }
}
