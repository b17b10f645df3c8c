/** A request and an answer that pass every gate, as a client and a node would send them. */
module Samples {
  import opened Wrappers
  import opened Text
  import opened Json
  import opened CacheRules
  import opened Format
  import opened HeadCache

  const VERSION := Member("jsonrpc", String("2.0"))

  // ---------------------------------------------------------------------------
  // Names in printed values

  lemma QuoteOfPlain(s: string)
    requires forall i :: 0 <= i < |s| ==> IsPlainChar(s[i])
    ensures Quote(s) == "\"" + s + "\""
  {
    PlainTextUnquotes(s);
  }

  lemma QuoteHoldsName(s: string, t: string)
    requires IsName(t) && (forall i :: 0 <= i < |s| ==> IsPlainChar(s[i]))
    ensures Contains(Quote(s), t) <==> Contains(s, t)
  {
    QuoteOfPlain(s);
    hide IsPlainChar, RemoveQuotes, Escape, Contains, Quote;
    MissesSeparator("", '\"', s, t);
    MissesSeparator("\"" + s, '\"', "", t);
    assert "" + ['\"'] + s == "\"" + s;
    assert "\"" + s + ['\"'] + "" == Quote(s);
    LongerMisses("", t);
  }

  lemma MemberAddsNoName(m: Member, rest: seq<Member>, t: string)
    requires IsName(t) && (forall i :: 0 <= i < |m.key| ==> IsPlainChar(m.key[i]))
    requires !Contains(m.key, t) && !Contains(Print(m.value), t) && !Contains(PrintMembers(rest), t)
    ensures !Contains(PrintMembers([m] + rest), t)
  {
    QuoteHoldsName(m.key, t);
    MembersHoldName([m] + rest, t);
    assert ([m] + rest)[1..] == rest;
  }

  lemma TwoItemsAddNoName(a: Value, b: Value, t: string)
    requires IsName(t) && !Contains(Print(a), t) && !Contains(Print(b), t)
    ensures !Contains(Print(Array([a, b])), t)
  {
    var items := [a, b];
    assert PrintItems(items[1..]) == Print(b);
    MissesSeparator(Print(a), ',', Print(b), t);
    assert PrintItems(items) == Print(a) + [','] + Print(b);
    MissesSeparator("", '[', PrintItems(items), t);
    MissesSeparator("[" + PrintItems(items), ']', "", t);
    assert "" + ['['] + PrintItems(items) == "[" + PrintItems(items);
    assert "[" + PrintItems(items) + [']'] + "" == Print(Array(items));
    LongerMisses("", t);
  }

  lemma VersionAddsNoName(rest: seq<Member>, t: string)
    requires IsName(t) && |t| >= 4
    requires !Contains("jsonrpc", t) && !Contains(PrintMembers(rest), t)
    ensures !Contains(PrintMembers([VERSION] + rest), t)
  {
    hide Print, PrintMembers, Contains;
    QuoteHoldsName("2.0", t);
    LongerMisses("2.0", t);
    assert Print(String("2.0")) == Quote("2.0") by { PrintOfString("2.0"); }
    MemberAddsNoName(VERSION, rest, t);
  }

  lemma PrintOfString(s: string)
    ensures Print(String(s)) == Quote(s)
  {
  }

  lemma IdAddsNoName(id: nat, rest: seq<Member>, t: string)
    requires IsName(t) && |t| >= 4 && !Contains(PrintMembers(rest), t)
    ensures !Contains(PrintMembers([Member("id", Number(id))] + rest), t)
  {
    hide PrintMembers, Contains;
    DecimalHoldsNoName(id, t);
    LongerMisses("id", t);
    MemberAddsNoName(Member("id", Number(id)), rest, t);
  }

  lemma QuantityHoldsNoName(n: nat, t: string, k: nat)
    requires IsName(t) && k < |t| && !IsQuantityChar(t[k])
    ensures !Contains(Print(Quantity(n)), t)
  {
    var text := "0x" + LowerHex(n);
    LowerHexShape(n);
    hide Contains, Quote;
    PrintOfString(text);
    hide Print;
    QuoteHoldsName(text, t);
    LacksChar(text, t, k);
  }

  // ---------------------------------------------------------------------------
  // The answer

  /** An upstream whose answer to any request spells out the block it was given from. */
  function Telling(key: Key, block: nat, id: nat): Reply {
    var body := Answer(Number(id), block);
    Reply(Print(body), Some(body))
  }

  function Answer(id: Value, block: nat): Value {
    Object([Member("id", id), VERSION, Member("result", Quantity(block))])
  }

  lemma AnswerIsStored(key: Key, block: nat, id: nat)
    ensures StoredForm(Telling(key, block, id)) == Some(Answer(Null, block))
    ensures Get(Telling(key, block, id).value.value, "id") == Some(Number(id))
  {
    hide Print, Quantity;
    var ms := Answer(Number(id), block).members;
    assert ms[0].key == "id";
    assert Insert(ms, "id", Null) == Answer(Null, block).members;
  }

  lemma AnswersDiffer(a: nat, b: nat)
    requires a != b
    ensures Answer(Null, a) != Answer(Null, b)
  {
    LowerHexValue(a);
    LowerHexValue(b);
    var x, y := Answer(Null, a).members[2].value.s, Answer(Null, b).members[2].value.s;
    assert x[2..] == LowerHex(a) && y[2..] == LowerHex(b);
  }

  lemma AnswerHoldsNoName(id: nat, block: nat, t: string, k: nat)
    requires IsName(t) && |t| >= 4 && k < |t| && !IsQuantityChar(t[k])
    requires !Contains("jsonrpc", t) && !Contains("result", t)
    ensures !Contains(Print(Answer(Number(id), block)), t)
  {
    hide Print, PrintMembers, Contains, Quantity;
    var result := Member("result", Quantity(block));
    QuantityHoldsNoName(block, t, k);
    NoMembers(t);
    MemberAddsNoName(result, [], t);
    VersionAddsNoName([result] + [], t);
    IdAddsNoName(id, [VERSION] + ([result] + []), t);
    assert [Member("id", Number(id))] + ([VERSION] + ([result] + [])) == Answer(Number(id), block).members;
    ObjectHoldsName(Answer(Number(id), block).members, t);
  }

  lemma NoMembers(t: string)
    requires t != ""
    ensures !Contains(PrintMembers([]), t)
  {
    LongerMisses("", t);
  }

  lemma MemberAddsNoChar(m: Member, rest: seq<Member>, c: char)
    requires c !in Quote(m.key) && c !in Print(m.value) && c !in PrintMembers(rest) && c !in {':', ','}
    ensures c !in PrintMembers([m] + rest)
  {
    hide Print, Quote;
    assert ([m] + rest)[1..] == rest;
  }

  lemma PlainHasNo(s: string, c: char)
    requires (forall i :: 0 <= i < |s| ==> IsPlainChar(s[i])) && c !in s && c != '\"'
    ensures c !in Quote(s) && c !in Print(String(s))
  {
    PlainTextUnquotes(s);
  }

  lemma QuantityHasNoMinus(n: nat)
    ensures '-' !in Print(Quantity(n))
  {
    var text := "0x" + LowerHex(n);
    LowerHexShape(n);
    hide LowerHex, Print;
    PlainHasNo(text, '-');
  }

  lemma DecimalHasNoMinus(n: nat)
    ensures '-' !in Print(Number(n))
  {
    DecimalShape(n);
    assert '-' !in Decimal(n);
  }

  lemma NoMembersText()
    ensures PrintMembers([]) == ""
  {
  }

  lemma ObjectAddsNoChar(ms: seq<Member>, c: char)
    requires c !in PrintMembers(ms) && c !in {'{', '}'}
    ensures c !in Print(Object(ms))
  {
  }

  lemma AnswerHasNoMinus(id: nat, block: nat)
    ensures '-' !in Print(Answer(Number(id), block))
  {
    hide Print, PrintMembers, Quote, Quantity;
    var result := Member("result", Quantity(block));
    PlainHasNo("result", '-');
    PlainHasNo("jsonrpc", '-');
    PlainHasNo("2.0", '-');
    PlainHasNo("id", '-');
    QuantityHasNoMinus(block);
    DecimalHasNoMinus(id);
    NoMembersText();
    MemberAddsNoChar(result, [], '-');
    MemberAddsNoChar(VERSION, [result] + [], '-');
    MemberAddsNoChar(Member("id", Number(id)), [VERSION] + ([result] + []), '-');
    assert [Member("id", Number(id))] + ([VERSION] + ([result] + [])) == Answer(Number(id), block).members;
    ObjectAddsNoChar(Answer(Number(id), block).members, '-');
  }

  /** The answer passes the gate on results. */
  lemma AnswerPassesGate(key: Key, block: nat, id: nat)
    ensures CacheResult(Telling(key, block, id).text)
  {
    hide Print, Contains, Answer;
    assert Telling(key, block, id).text == Print(Answer(Number(id), block));
    LacksChar("jsonrpc", "error", 0);
    LacksChar("result", "error", 3);
    AnswerHoldsNoName(id, block, "error", 3);
    LacksChar("jsonrpc", "null", 1);
    LacksChar("result", "null", 0);
    AnswerHoldsNoName(id, block, "null", 1);
    AnswerHasNoMinus(id, block);
    LacksChar(Print(Answer(Number(id), block)), "-32", 0);
    assert forall word :: word in RESULT_BLACKLIST ==> word in {"error", "-32", "null"};
  }

  // ---------------------------------------------------------------------------
  // The request

  function Address(): string {
    "0x" + seq(40, _ => '0')
  }

  /** What an account owned at a block. */
  function Sample(id: Value, block: string): Value {
    Object([
      Member("id", id),
      VERSION,
      Member("method", String("eth_getBalance")),
      Member("params", Array([String(Address()), String(block)]))])
  }

  lemma SampleFields(id: Value, block: string)
    ensures Field(Sample(id, block), "id") == id
    ensures Field(Sample(id, block), "method") == String("eth_getBalance")
    ensures Field(Sample(id, block), "params") == Array([String(Address()), String(block)])
  {
    hide Address;
    var ms := Sample(id, block).members;
    assert Find(ms[3..], "params") == Some(Array([String(Address()), String(block)]));
    assert ms[2..][1..] == ms[3..] && ms[1..][1..] == ms[2..];
    assert Find(ms[2..], "params") == Find(ms[3..], "params");
    assert Find(ms[1..], "params") == Find(ms[2..], "params");
    assert Find(ms[2..], "method") == Some(String("eth_getBalance"));
    assert Find(ms[1..], "method") == Find(ms[2..], "method");
  }

  lemma SampleIds(id: Value, other: Value, block: string)
    ensures Set(Sample(id, block), "id", other) == Sample(other, block)
  {
    hide Address;
    assert Sample(id, block).members[0].key == "id";
  }

  lemma SampleBlock(id: Value, block: string)
    requires forall i :: 0 <= i < |block| ==> IsPlainChar(block[i])
    ensures BlockPosition(Sample(id, block)) == Some(1)
    ensures BlockText(Sample(id, block), 1) == block
  {
    hide Sample, Print, RemoveQuotes;
    SampleFields(id, block);
    QuotedUnquotes(block);
  }

  lemma OneText()
    ensures TagIn("0x1") == NoTag && ParseBlock("0x1") == Block(1)
  {
    QuantityText(1);
    assert "0x" + LowerHex(1) == "0x1";
    NoTagMeansNoTag("0x1");
  }

  /** Whatever its id, the request for block 1 has the same key, which names block 1. */
  lemma SampleKey(id: Value, named: NamedBlocknumbers)
    ensures Sample(id, "0x1").Object? && KeyOf(Sample(id, "0x1"), named) == Sample(Null, "0x1")
    ensures PlainNumber(Sample(Null, "0x1")) == Block(1)
    ensures id == Number(7) ==> IdOf(Sample(id, "0x1")) == 7
  {
    SampleIsObject(id, "0x1");
    hide Sample, TagIn, ParseBlock, BlockText, BlockPosition;
    OneText();
    SampleFields(id, "0x1");
    SampleBlock(Null, "0x1");
    SampleIds(id, Null, "0x1");
  }

  lemma SampleIsObject(id: Value, block: string)
    ensures Sample(id, block).Object?
  {
  }

  /** What no part of the request contains, the request does not contain. */
  lemma SampleHoldsNoName(id: nat, block: string, t: string)
    requires IsName(t) && |t| >= 4 && forall i :: 0 <= i < |block| ==> IsPlainChar(block[i])
    requires !Contains("jsonrpc", t) && !Contains("method", t) && !Contains("eth_getBalance", t)
    requires !Contains("params", t) && !Contains(Address(), t) && !Contains(block, t)
    ensures !Contains(Print(Sample(Number(id), block)), t)
  {
    hide Print, PrintMembers, Contains, Quote, Address;
    var list := Array([String(Address()), String(block)]);
    var params := Member("params", list);
    var call := Member("method", String("eth_getBalance"));
    AddressIsPlain();
    PrintOfString(Address());
    PrintOfString(block);
    PrintOfString("eth_getBalance");
    QuoteHoldsName(Address(), t);
    QuoteHoldsName(block, t);
    QuoteHoldsName("eth_getBalance", t);
    TwoItemsAddNoName(String(Address()), String(block), t);
    NoMembers(t);
    MemberAddsNoName(params, [], t);
    MemberAddsNoName(call, [params] + [], t);
    VersionAddsNoName([call] + ([params] + []), t);
    IdAddsNoName(id, [VERSION] + ([call] + ([params] + [])), t);
    assert [Member("id", Number(id))] + ([VERSION] + ([call] + ([params] + [])))
        == Sample(Number(id), block).members;
    ObjectHoldsName(Sample(Number(id), block).members, t);
  }

  lemma AddressIsPlain()
    ensures forall i :: 0 <= i < |Address()| ==> IsPlainChar(Address()[i]) && IsQuantityChar(Address()[i])
  {
  }

  lemma TokensHoldNoTag(t: string)
    requires t in TAGS
    ensures !Contains("jsonrpc", t) && !Contains("method", t) && !Contains("params", t)
    ensures !Contains("eth_getBalance", t)
  {
    hide Contains;
    if t == LATEST {
      TokensLack(t, 0, 0, 0, 4);
    } else if t == EARLIEST {
      TokensLack(t, 0, 1, 0, 2);
    } else if t == SAFE {
      TokensLack(t, 1, 0, 2, 0);
    } else if t == FINALIZED {
      TokensLack(t, 0, 0, 0, 0);
    } else {
      TokensLack(t, 1, 0, 1, 0);
    }
  }

  /** The characters that keep a tag out of the fixed parts of the request. */
  lemma TokensLack(t: string, version: nat, name: nat, params: nat, call: nat)
    requires version < |t| && name < |t| && params < |t| && call < |t|
    requires t[version] in {'l', 'e', 'a', 'f'} && t[name] in {'l', 'a', 's', 'f', 'p'}
    requires t[params] in {'l', 'e', 'f'} && t[call] in {'s', 'r', 'f', 'p'}
    ensures !Contains("jsonrpc", t) && !Contains("method", t) && !Contains("params", t)
    ensures !Contains("eth_getBalance", t)
  {
    hide Contains;
    LacksChar("jsonrpc", t, version);
    LacksChar("method", t, name);
    LacksChar("params", t, params);
    LacksChar("eth_getBalance", t, call);
  }

  lemma TokensHoldNoMethod(t: string)
    requires t in METHOD_BLACKLIST
    ensures !Contains("jsonrpc", t) && !Contains("method", t) && !Contains("params", t)
    ensures !Contains("eth_getBalance", t) && !Contains(Address(), t)
  {
    MethodsHaveUnderscores(t);
    hide Contains, Address;
    LongerMisses("jsonrpc", t);
    LongerMisses("method", t);
    LongerMisses("params", t);
    BalanceHoldsNoMethod(t);
    AddressHoldsNoMethod(t);
  }

  lemma BalanceHoldsNoMethod(t: string)
    requires |t| > 4 && (|t| <= 14 ==> t[4] == 's')
    ensures !Contains("eth_getBalance", t)
  {
    hide Contains;
    if |t| <= 14 {
      LacksChar("eth_getBalance", t, 4);
    } else {
      LongerMisses("eth_getBalance", t);
    }
  }

  lemma AddressHoldsNoMethod(t: string)
    requires |t| > 4 && t[3] == '_'
    ensures !Contains(Address(), t)
  {
    AddressIsPlain();
    hide Contains, Address;
    LacksChar(Address(), t, 3);
  }

  lemma MethodsHaveUnderscores(t: string)
    requires t in METHOD_BLACKLIST
    ensures |t| > 8 && t[3] == '_' && (|t| <= 14 ==> t[4] == 's')
  {
  }

  lemma SampleHoldsNoBlocked(id: nat, block: string, t: string)
    requires t in TAGS || t in METHOD_BLACKLIST
    requires |block| < 4 && forall i :: 0 <= i < |block| ==> IsPlainChar(block[i])
    ensures !Contains(Print(Sample(Number(id), block)), t)
  {
    hide Print, Contains, Address, Sample;
    TagsAreNames();
    MethodsAreNames();
    AddressIsPlain();
    if t in TAGS {
      TokensHoldNoTag(t);
      PlainTextHoldsNoTag(Address());
    } else {
      TokensHoldNoMethod(t);
    }
    LongerMisses(block, t);
    SampleHoldsNoName(id, block, t);
  }

  /** The request passes the gate on requests. */
  lemma SamplePassesGate(id: nat, block: string)
    requires |block| < 4 && forall i :: 0 <= i < |block| ==> IsPlainChar(block[i])
    ensures CacheMethod(Print(Sample(Number(id), block)))
  {
    hide Print, Contains, Sample;
    forall t | t in TAGS || t in METHOD_BLACKLIST { SampleHoldsNoBlocked(id, block, t); }
  }

  // ---------------------------------------------------------------------------
  // Two requests the proxy does not answer as asked

  /** A cacheable request for the block `"1"`, which a node may well answer, ends its connection. */
  lemma ShortParameterPanics(named: NamedBlocknumbers, answer: nat)
    ensures var tx, rx := Sample(Number(7), "1"), Telling(Sample(Null, "1"), answer, 7);
            && CanCache(Print(tx), rx.text) && StoredForm(rx).Some?
            && TooShort(tx) && GetBlockNumberFromRequest(tx, named) == Panics
  {
    hide Print, CacheMethod, CacheResult, Sample;
    SamplePassesGate(7, "1");
    AnswerPassesGate(Sample(Null, "1"), answer, 7);
    AnswerIsStored(Sample(Null, "1"), answer, 7);
    SampleBlock(Number(7), "1");
    PanicsIffTooShort(Sample(Number(7), "1"), named);
  }

  /** A request with a string id goes out with id 0. */
  lemma StringIdGoesOutAsZero(named: NamedBlocknumbers)
    ensures var tx := Sample(String("a"), "0x1");
            && tx.Object? && Get(tx, "id") == Some(String("a"))
            && Get(Outgoing(tx, named), "id") == Some(Number(0))
  {
    SampleIsObject(String("a"), "0x1");
    SampleFields(String("a"), "0x1");
    hide Sample;
    OutgoingRestoresId(Sample(String("a"), "0x1"), named);
  }
}
