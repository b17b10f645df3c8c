/** Compact JSON text determines the value it prints, and the members of an object determine the
    order they are kept in, so that keeping the hash of the text of a request is as good as keeping
    the request, whatever order it was written in. */
module JsonText {
  import opened Wrappers
  import opened Text
  import opened Json

  /** What may follow a value: nothing, or what ends or separates values. */
  predicate Ends(x: string) {
    x == "" || x[0] in {',', ']', '}'}
  }

  lemma SameLength(a: string, b: string, x: string, y: string)
    requires a + x == b + y && |a| == |b|
    ensures a == b && x == y
  {
    assert (a + x)[..|a|] == a && (b + y)[..|b|] == b;
    assert (a + x)[|a|..] == x && (b + y)[|b|..] == y;
  }

  lemma StartOf(a: string, x: string)
    requires a != ""
    ensures (a + x)[0] == a[0]
  {
  }

  lemma Regroup(a: string, b: string, c: string, d: string)
    ensures a + b + c + d == a + (b + c + d)
    ensures a + b + c == a + (b + c)
  {
  }

  // ---------------------------------------------------------------------------
  // Numbers

  predicate IsDigit(c: char) {
    '0' <= c <= '9'
  }

  /** The digits a text starts with. */
  function LeadingDigits(s: string): string {
    if s == "" || !IsDigit(s[0]) then "" else [s[0]] + LeadingDigits(s[1..])
  }

  lemma {:induction false} DigitsLead(a: string, x: string)
    requires (forall i :: 0 <= i < |a| ==> IsDigit(a[i])) && Ends(x)
    ensures LeadingDigits(a + x) == a
  {
    if a == "" {
      assert a + x == x;
    } else {
      DigitsLead(a[1..], x);
      assert (a + x)[1..] == a[1..] + x;
    }
  }

  lemma NumberIsRead(a: nat, b: nat, x: string, y: string)
    requires Decimal(a) + x == Decimal(b) + y && Ends(x) && Ends(y)
    ensures a == b && x == y
  {
    DecimalShape(a);
    DecimalShape(b);
    DigitsLead(Decimal(a), x);
    DigitsLead(Decimal(b), y);
    DecimalsDiffer(a, b);
    SameLength(Decimal(a), Decimal(b), x, y);
  }

  // ---------------------------------------------------------------------------
  // Strings

  /** How long the escape is that a text starts with. */
  function EscapeLength(s: string): nat {
    if |s| < 2 || s[0] != '\\' then 1 else if s[1] == 'u' then 6 else 2
  }

  lemma EscapeLengthIs(c: char, x: string)
    ensures EscapeLength(EscapeChar(c) + x) == |EscapeChar(c)|
  {
    assert (EscapeChar(c) + x)[..|EscapeChar(c)|] == EscapeChar(c);
    assert |EscapeChar(c)| > 1 ==> (EscapeChar(c) + x)[1] == EscapeChar(c)[1];
  }

  lemma CharIsRead(c: char, d: char)
    requires EscapeChar(c) == EscapeChar(d)
    ensures c == d
  {
    var s := EscapeChar(c);
    if |s| == 6 {
      ControlIs(c);
      ControlIs(d);
      DigitsDiffer(c as nat / 16, d as nat / 16);
      DigitsDiffer(c as nat % 16, d as nat % 16);
    } else {
      assert s[|s| - 1] == EscapeChar(d)[|s| - 1];
    }
  }

  lemma ControlIs(c: char)
    requires |EscapeChar(c)| == 6
    ensures c < 32 as char
    ensures EscapeChar(c)[4] == HEX_DIGITS[c as nat / 16] && EscapeChar(c)[5] == HEX_DIGITS[c as nat % 16]
  {
  }

  lemma EscapedStart(s: string, x: string)
    ensures (Escape(s) + "\"" + x)[0] == '\"' <==> s == ""
  {
    if s != "" {
      assert Escape(s)[0] == EscapeChar(s[0])[0];
    }
  }

  lemma EscapedSplit(s: string, x: string)
    requires s != ""
    ensures Escape(s) + "\"" + x == EscapeChar(s[0]) + (Escape(s[1..]) + "\"" + x)
  {
    hide EscapeChar;
    Regroup(EscapeChar(s[0]), Escape(s[1..]), "\"", x);
  }

  lemma {:induction false} EscapedIsRead(s: string, t: string, x: string, y: string)
    requires Escape(s) + "\"" + x == Escape(t) + "\"" + y
    ensures s == t && x == y
  {
    EscapedStart(s, x);
    EscapedStart(t, y);
    if s == "" {
      assert "\"" + x == Escape(s) + "\"" + x && "\"" + y == Escape(t) + "\"" + y;
      SameLength("\"", "\"", x, y);
    } else {
      var u, v := Escape(s[1..]) + "\"" + x, Escape(t[1..]) + "\"" + y;
      EscapedSplit(s, x);
      EscapedSplit(t, y);
      hide Escape, EscapeChar, EscapeLength;
      EscapeLengthIs(s[0], u);
      EscapeLengthIs(t[0], v);
      SameLength(EscapeChar(s[0]), EscapeChar(t[0]), u, v);
      CharIsRead(s[0], t[0]);
      EscapedIsRead(s[1..], t[1..], x, y);
      assert s == [s[0]] + s[1..] && t == [t[0]] + t[1..];
    }
  }

  lemma QuotedIsRead(s: string, t: string, x: string, y: string)
    requires Quote(s) + x == Quote(t) + y
    ensures s == t && x == y
  {
    hide Escape;
    Regroup("\"", Escape(s), "\"", x);
    Regroup("\"", Escape(t), "\"", y);
    SameLength("\"", "\"", Escape(s) + "\"" + x, Escape(t) + "\"" + y);
    EscapedIsRead(s, t, x, y);
  }

  // ---------------------------------------------------------------------------
  // Values

  datatype Kind = IsNull | IsTrue | IsFalse | IsNumber | IsString | IsArray | IsObject | IsNothing

  function KindAt(c: char): Kind {
    if c == 'n' then IsNull else if c == 't' then IsTrue else if c == 'f' then IsFalse
    else if IsDigit(c) then IsNumber else if c == '\"' then IsString
    else if c == '[' then IsArray else if c == '{' then IsObject else IsNothing
  }

  function KindOf(j: Value): Kind {
    match j
    case Null => IsNull
    case Bool(b) => if b then IsTrue else IsFalse
    case Number(_) => IsNumber
    case String(_) => IsString
    case Array(_) => IsArray
    case Object(_) => IsObject
  }

  lemma PrintStart(j: Value)
    ensures Print(j) != "" && KindAt(Print(j)[0]) == KindOf(j) != IsNothing
  {
    if j.Number? {
      DecimalShape(j.n);
    }
  }

  lemma ValuesOfOneKind(a: Value, b: Value, x: string, y: string)
    requires Print(a) + x == Print(b) + y
    ensures KindOf(a) == KindOf(b)
  {
    PrintStart(a);
    PrintStart(b);
    assert (Print(a) + x)[0] == Print(a)[0] && (Print(b) + y)[0] == Print(b)[0];
  }

  lemma ArrayText(items: seq<Value>, x: string)
    ensures Print(Array(items)) + x == "[" + (PrintItems(items) + "]" + x)
  {
    hide PrintItems;
    Regroup("[", PrintItems(items), "]", x);
  }

  lemma ObjectText(ms: seq<Member>, x: string)
    ensures Print(Object(ms)) + x == "{" + (PrintMembers(ms) + "}" + x)
  {
    hide PrintMembers;
    Regroup("{", PrintMembers(ms), "}", x);
  }

  /** A value is read back from its text, whatever follows it. */
  lemma {:induction false} ValueIsRead(a: Value, b: Value, x: string, y: string)
    requires Print(a) + x == Print(b) + y && Ends(x) && Ends(y)
    ensures a == b && x == y
    decreases a, 2
  {
    ValuesOfOneKind(a, b, x, y);
    hide Decimal, Quote, PrintItems, PrintMembers, Ends;
    match a {
      case Null => SameLength(Print(a), Print(b), x, y);
      case Bool(_) => SameLength(Print(a), Print(b), x, y);
      case Number(n) => NumberIsRead(n, b.n, x, y);
      case String(s) => QuotedIsRead(s, b.s, x, y);
      case Array(items) =>
        ArrayText(items, x);
        ArrayText(b.items, y);
        SameLength("[", "[", PrintItems(items) + "]" + x, PrintItems(b.items) + "]" + y);
        ItemsAreRead(items, b.items, x, y);
      case Object(ms) =>
        ObjectText(ms, x);
        ObjectText(b.members, y);
        SameLength("{", "{", PrintMembers(ms) + "}" + x, PrintMembers(b.members) + "}" + y);
        MembersAreRead(ms, b.members, x, y);
    }
  }

  lemma NoItems(x: string)
    ensures PrintItems([]) + "]" + x == "]" + x && PrintMembers([]) + "}" + x == "}" + x
  {
    assert PrintItems([]) == "" && PrintMembers([]) == "";
    assert "" + "]" == "]" && "" + "}" == "}";
  }

  /** What follows the first item. */
  function ItemsTail(items: seq<Value>, x: string): string
    requires items != []
  {
    if |items| == 1 then "]" + x else "," + (PrintItems(items[1..]) + "]" + x)
  }

  lemma ItemsSplit(items: seq<Value>, x: string)
    ensures (PrintItems(items) + "]" + x)[0] == ']' <==> items == []
    ensures items != [] ==> PrintItems(items) + "]" + x == Print(items[0]) + ItemsTail(items, x)
  {
    hide Print, PrintItems, ItemsTail;
    NoItems(x);
    if items != [] {
      PrintStart(items[0]);
      ItemsRest(items, x);
      StartOf(Print(items[0]), ItemsTail(items, x));
    }
  }

  lemma ItemsRest(items: seq<Value>, x: string)
    requires items != []
    ensures PrintItems(items) + "]" + x == Print(items[0]) + ItemsTail(items, x)
  {
    hide Print;
    if |items| == 1 {
      Regroup(Print(items[0]), "]", x, "");
    } else {
      var rest := PrintItems(items[1..]);
      assert PrintItems(items) == Print(items[0]) + "," + rest;
      hide PrintItems;
      Regroup(Print(items[0]) + ",", rest, "]", x);
      Regroup(Print(items[0]), ",", rest + "]" + x, "");
    }
  }

  lemma {:induction false} ItemsAreRead(a: seq<Value>, b: seq<Value>, x: string, y: string)
    requires PrintItems(a) + "]" + x == PrintItems(b) + "]" + y
    ensures a == b && x == y
    decreases a, 1
  {
    ItemsSplit(a, x);
    ItemsSplit(b, y);
    NoItems(x);
    NoItems(y);
    hide Print, PrintItems;
    if a == [] {
      SameLength("]", "]", x, y);
    } else {
      ValueIsRead(a[0], b[0], ItemsTail(a, x), ItemsTail(b, y));
      assert ItemsTail(a, x)[0] == ItemsTail(b, y)[0];
      if |a| == 1 {
        SameLength("]", "]", x, y);
      } else {
        SameLength(",", ",", PrintItems(a[1..]) + "]" + x, PrintItems(b[1..]) + "]" + y);
        ItemsAreRead(a[1..], b[1..], x, y);
      }
      assert a == [a[0]] + a[1..] && b == [b[0]] + b[1..];
    }
  }

  function MembersTail(ms: seq<Member>, x: string): string
    requires ms != []
  {
    if |ms| == 1 then "}" + x else "," + (PrintMembers(ms[1..]) + "}" + x)
  }

  lemma MembersSplit(ms: seq<Member>, x: string)
    ensures (PrintMembers(ms) + "}" + x)[0] == '}' <==> ms == []
    ensures ms != [] ==>
              PrintMembers(ms) + "}" + x == Quote(ms[0].key) + (":" + (Print(ms[0].value) + MembersTail(ms, x)))
  {
    hide Print, PrintMembers, Quote, MembersTail;
    NoItems(x);
    if ms != [] {
      QuoteStart(ms[0].key);
      MembersRest(ms, x);
      StartOf(Quote(ms[0].key), ":" + (Print(ms[0].value) + MembersTail(ms, x)));
    }
  }

  lemma MembersRest(ms: seq<Member>, x: string)
    requires ms != []
    ensures PrintMembers(ms) + "}" + x == Quote(ms[0].key) + (":" + (Print(ms[0].value) + MembersTail(ms, x)))
  {
    var key, value := Quote(ms[0].key), Print(ms[0].value);
    MemberRest(ms[0], MembersTail(ms, x));
    hide Print, Quote, PrintMember;
    if |ms| == 1 {
      Regroup(PrintMember(ms[0]), "}", x, "");
    } else {
      var rest := PrintMembers(ms[1..]);
      assert PrintMembers(ms) == PrintMember(ms[0]) + "," + rest;
      hide PrintMembers;
      Regroup(PrintMember(ms[0]) + ",", rest, "}", x);
      Regroup(PrintMember(ms[0]), ",", rest + "}" + x, "");
    }
  }

  lemma MemberRest(m: Member, x: string)
    ensures PrintMember(m) + x == Quote(m.key) + (":" + (Print(m.value) + x))
  {
    hide Print, Quote;
    Regroup(Quote(m.key), ":", Print(m.value), x);
    Regroup(":", Print(m.value), x, "");
  }

  lemma QuoteStart(s: string)
    ensures Quote(s) != "" && Quote(s)[0] == '\"'
  {
  }

  lemma {:induction false} MembersAreRead(a: seq<Member>, b: seq<Member>, x: string, y: string)
    requires PrintMembers(a) + "}" + x == PrintMembers(b) + "}" + y
    ensures a == b && x == y
    decreases a, 1
  {
    MembersSplit(a, x);
    MembersSplit(b, y);
    NoItems(x);
    NoItems(y);
    hide Print, PrintMembers, Quote;
    if a == [] {
      SameLength("}", "}", x, y);
    } else {
      var u, v := Print(a[0].value) + MembersTail(a, x), Print(b[0].value) + MembersTail(b, y);
      QuotedIsRead(a[0].key, b[0].key, ":" + u, ":" + v);
      SameLength(":", ":", u, v);
      ValueIsRead(a[0].value, b[0].value, MembersTail(a, x), MembersTail(b, y));
      assert MembersTail(a, x)[0] == MembersTail(b, y)[0];
      if |a| == 1 {
        SameLength("}", "}", x, y);
      } else {
        SameLength(",", ",", PrintMembers(a[1..]) + "}" + x, PrintMembers(b[1..]) + "}" + y);
        MembersAreRead(a[1..], b[1..], x, y);
      }
      assert a == [a[0]] + a[1..] && b == [b[0]] + b[1..];
    }
  }

  /** Two values have the same text exactly when they are equal. */
  lemma TextDeterminesValue(a: Value, b: Value)
    ensures Print(a) == Print(b) <==> a == b
  {
    if Print(a) == Print(b) {
      assert Print(a) + "" == Print(b) + "";
      ValueIsRead(a, b, "", "");
    }
  }

  // ---------------------------------------------------------------------------
  // The order of members

  /** The keys ascend, so none comes twice. */
  ghost predicate Sorted(ms: seq<Member>) {
    forall i, j :: 0 <= i < j < |ms| ==> KeyLess(ms[i].key, ms[j].key)
  }

  lemma {:induction false} KeyOrder(a: string, b: string)
    ensures !(KeyLess(a, b) && KeyLess(b, a)) && !KeyLess(a, a)
    ensures a == b || KeyLess(a, b) || KeyLess(b, a)
  {
    if a != "" {
      KeyOrder(a[1..], a[1..]);
    }
    if a != "" && b != "" && a[0] == b[0] {
      KeyOrder(a[1..], b[1..]);
      assert a == [a[0]] + a[1..] && b == [b[0]] + b[1..];
    }
  }

  lemma {:induction false} KeyOrderIsTransitive(a: string, b: string, c: string)
    requires KeyLess(a, b) && KeyLess(b, c)
    ensures KeyLess(a, c)
  {
    if a != "" && a[0] == b[0] == c[0] {
      KeyOrderIsTransitive(a[1..], b[1..], c[1..]);
    }
  }

  lemma {:induction false} FoundKeys(ms: seq<Member>, key: string)
    requires Sorted(ms) && Find(ms, key).Some?
    ensures key == ms[0].key || KeyLess(ms[0].key, key)
  {
    if ms[0].key != key {
      var i := FoundMember(ms[1..], key);
      assert ms[1..][i] == ms[i + 1];
    }
  }

  lemma SortedBehind(m: Member, rest: seq<Member>)
    requires Sorted(rest) && forall r :: r in rest ==> KeyLess(m.key, r.key)
    ensures Sorted([m] + rest)
  {
    hide KeyLess;
  }

  lemma SortedParts(ms: seq<Member>)
    requires Sorted(ms) && ms != []
    ensures Sorted(ms[1..]) && forall r :: r in ms[1..] ==> KeyLess(ms[0].key, r.key)
  {
    hide KeyLess;
  }

  /** Updating an object keeps its members in order. */
  lemma {:induction false} InsertKeepsSorted(ms: seq<Member>, key: string, v: Value)
    requires Sorted(ms)
    ensures Sorted(Insert(ms, key, v))
    ensures forall m :: m in Insert(ms, key, v) ==> m.key == key || m in ms
  {
    hide KeyLess, Sorted, Find;
    if ms != [] {
      SortedParts(ms);
      assert ms == [ms[0]] + ms[1..];
    }
    if GoesFirst(ms, key) {
      BeforeFirst(ms, key);
      SortedBehind(Member(key, v), ms);
    } else if ms[0].key == key {
      SortedBehind(Member(key, v), ms[1..]);
    } else {
      InsertKeepsSorted(ms[1..], key, v);
      FirstComesFirst(ms, key);
      SortedBehind(ms[0], Insert(ms[1..], key, v));
    }
  }

  lemma BeforeFirst(ms: seq<Member>, key: string)
    requires Sorted(ms) && GoesFirst(ms, key)
    ensures forall r :: r in ms ==> KeyLess(key, r.key)
  {
    hide KeyLess;
    forall r | r in ms
      ensures KeyLess(key, r.key)
    {
      if r != ms[0] {
        KeyOrderIsTransitive(key, ms[0].key, r.key);
      }
    }
  }

  lemma FirstComesFirst(ms: seq<Member>, key: string)
    requires Sorted(ms) && !GoesFirst(ms, key) && ms[0].key != key
    ensures KeyLess(ms[0].key, key)
  {
    KeyOrder(ms[0].key, key);
    if Find(ms, key).Some? {
      FoundKeys(ms, key);
    }
  }

  lemma FirstIsSmallest(a: seq<Member>, b: seq<Member>)
    requires Sorted(a) && Sorted(b) && a != [] && b != []
    requires Find(a, b[0].key).Some? && Find(b, a[0].key).Some?
    ensures a[0].key == b[0].key
  {
    FoundKeys(a, b[0].key);
    FoundKeys(b, a[0].key);
    KeyOrder(a[0].key, b[0].key);
  }

  lemma OnlyFirst(ms: seq<Member>)
    requires Sorted(ms) && ms != []
    ensures Find(ms[1..], ms[0].key) == None
  {
    if Find(ms[1..], ms[0].key).Some? {
      var i := FoundMember(ms[1..], ms[0].key);
      assert ms[1..][i] == ms[i + 1];
      KeyOrder(ms[0].key, ms[0].key);
      assert false;
    }
  }

  /** Members that are kept in order are determined by what they say, so that two requests with the
      same members are one value, with one text, in whatever order they were written. */
  lemma {:induction false} MembersDetermineObject(a: seq<Member>, b: seq<Member>)
    requires Sorted(a) && Sorted(b) && forall key :: Find(a, key) == Find(b, key)
    ensures a == b
  {
    if a == [] || b == [] {
      assert a != [] ==> Find(b, a[0].key).Some?;
      assert b != [] ==> Find(a, b[0].key).Some?;
    } else {
      assert Find(a, b[0].key).Some? && Find(b, a[0].key).Some?;
      FirstIsSmallest(a, b);
      assert Find(a, a[0].key) == Find(b, a[0].key);
      OnlyFirst(a);
      OnlyFirst(b);
      forall key
        ensures Find(a[1..], key) == Find(b[1..], key)
      {
        assert Find(a, key) == Find(b, key);
      }
      MembersDetermineObject(a[1..], b[1..]);
      assert a == [a[0]] + a[1..] && b == [b[0]] + b[1..];
    }
  }
}
