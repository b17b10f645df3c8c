/** Block tags in requests: recognising them, rewriting them to numbers, and reading
    the number of the block a request names. */
module Format {
  import opened Wrappers
  import opened Text
  import opened Json
  import opened CacheRules
  import RpcMethod

  datatype NamedNumber = Latest | Earliest | Safe | Finalized | Pending | NoTag

  datatype NamedBlocknumbers =
    NamedBlocknumbers(latest: nat, earliest: nat, safe: nat, finalized: nat, pending: nat)
  {
    /** The numbers are `u64`s. */
    predicate Fit() {
      latest < U64_LIMIT && earliest < U64_LIMIT && safe < U64_LIMIT && finalized < U64_LIMIT && pending < U64_LIMIT
    }
  }

  /** Outcome of looking for the block number of a request. Slicing the first two bytes off
      a shorter parameter panics. */
  datatype BlockNumber = Block(n: nat) | NoBlock | Panics

  const NAMED: seq<NamedNumber> := [Latest, Earliest, Safe, Finalized, Pending]

  /** The first tag, in the order of the list, that the text contains. */
  function TagIn(param: string): NamedNumber {
    if Contains(param, LATEST) then Latest
    else if Contains(param, EARLIEST) then Earliest
    else if Contains(param, SAFE) then Safe
    else if Contains(param, FINALIZED) then Finalized
    else if Contains(param, PENDING) then Pending
    else NoTag
  }

  method HasNamedNumber(param: string) returns (nn: NamedNumber)
    ensures nn == TagIn(param)
    ensures nn == NoTag <==> !HasBlockTag(param)
  {
    for index := 0 to |TAGS|
      invariant forall i :: 0 <= i < index ==> !Contains(param, TAGS[i])
    {
      if Contains(param, TAGS[index]) {
        assert TAGS[index] in TAGS;
        assert index > 0 ==> !Contains(param, TAGS[0]);
        assert index > 1 ==> !Contains(param, TAGS[1]);
        assert index > 2 ==> !Contains(param, TAGS[2]);
        assert index > 3 ==> !Contains(param, TAGS[3]);
        return NAMED[index];
      }
    }
    NoTagMeansNoTag(param);
    return NoTag;
  }

  lemma NoTagMeansNoTag(param: string)
    ensures TagIn(param) == NoTag <==> !HasBlockTag(param)
  {
    assert forall tag :: tag in TAGS <==> tag in {LATEST, EARLIEST, SAFE, FINALIZED, PENDING};
  }

  function AsStr(j: Value): Option<string> {
    if j.String? then Some(j.s) else None
  }

  /** Where the block parameter is, for a request that has parameters and a method taking one. */
  function BlockPosition(tx: Value): Option<nat> {
    var params := Field(tx, "params");
    if params.Array? && params.items != [] then RpcMethod.GetPosition(AsStr(Field(tx, "method"))) else None
  }

  /** The text of the block parameter without its quotation marks. */
  function BlockText(tx: Value, position: nat): string {
    RemoveQuotes(Print(Item(Field(tx, "params"), position)))
  }

  function NumberOf(nn: NamedNumber, named: NamedBlocknumbers): nat
    requires nn != NoTag
  {
    match nn
    case Latest => named.latest
    case Earliest => named.earliest
    case Safe => named.safe
    case Finalized => named.finalized
    case Pending => named.pending
  }

  /** The number in a block parameter that holds no tag. */
  function ParseBlock(text: string): BlockNumber {
    if |text| < 2 then Panics
    else
      match FromStrRadix16(text[2..])
      case Some(n) => Block(n)
      case None => NoBlock
  }

  function GetBlockNumberFromRequest(tx: Value, named: NamedBlocknumbers): BlockNumber {
    match BlockPosition(tx)
    case None => NoBlock
    case Some(position) =>
      var text := BlockText(tx, position);
      var nn := TagIn(text);
      if nn != NoTag then Block(NumberOf(nn, named)) else ParseBlock(text)
  }

  /** The block parameter is too short to have its prefix sliced off. */
  predicate TooShort(tx: Value) {
    BlockPosition(tx).Some? && |BlockText(tx, BlockPosition(tx).value)| < 2
  }

  /** Looking for the block number panics exactly for such a parameter, which is too short for a
      tag as well. */
  lemma PanicsIffTooShort(tx: Value, named: NamedBlocknumbers)
    ensures GetBlockNumberFromRequest(tx, named) == Panics <==> TooShort(tx)
  {
    if TooShort(tx) {
      var text := BlockText(tx, BlockPosition(tx).value);
      NoTagMeansNoTag(text);
      forall tag | tag in TAGS
        ensures !Contains(text, tag)
      {
        LongerMisses(text, tag);
      }
    }
  }

  function Quantity(n: nat): Value {
    String("0x" + LowerHex(n))
  }

  /** The request with the item at `position` of its parameters replaced. */
  function SetParam(tx: Value, position: nat, v: Value): Value
    requires tx.Object? && Field(tx, "params").Array? && position < |Field(tx, "params").items|
  {
    Set(tx, "params", Array(Field(tx, "params").items[position := v]))
  }

  /** `latest` and `finalized` become quantities once their numbers are known, that is nonzero;
      every other request is left as it is. */
  function ReplaceBlockTags(tx: Value, named: NamedBlocknumbers): Value {
    match BlockPosition(tx)
    case None => tx
    case Some(position) =>
      var nn := TagIn(BlockText(tx, position));
      if nn in {Latest, Finalized} && NumberOf(nn, named) != 0 then
        TaggedParamExists(tx, position);
        SetParam(tx, position, Quantity(NumberOf(nn, named)))
      else tx
  }

  lemma TaggedParamExists(tx: Value, position: nat)
    requires Field(tx, "params").Array?
    requires TagIn(BlockText(tx, position)) != NoTag
    ensures tx.Object? && position < |Field(tx, "params").items|
  {
    if position >= |Field(tx, "params").items| {
      assert Print(Null) == "null";
      assert RemoveQuotes("null") == "null" by {
        assert RemoveQuotes("null"[1..]) == "ull" by {
          assert RemoveQuotes("ull"[1..]) == "ll";
        }
      }
      NoTagMeansNoTag("null");
    }
  }

  // ---------------------------------------------------------------------------
  // Rewriting and parsing undo each other

  predicate IsPlainChar(c: char) {
    c >= ' ' && c != '\"' && c != '\\'
  }

  lemma {:induction false} PlainTextUnquotes(s: string)
    requires forall i :: 0 <= i < |s| ==> IsPlainChar(s[i])
    ensures Escape(s) == s && RemoveQuotes(s + "\"") == s
  {
    if s != "" {
      PlainTextUnquotes(s[1..]);
      assert (s + "\"")[1..] == s[1..] + "\"";
      assert IsPlainChar(s[0]);
      assert EscapeChar(s[0]) == [s[0]];
    } else {
      assert "" + "\"" == "\"";
      assert "\""[1..] == "";
    }
  }

  lemma PlainTextHoldsNoTag(s: string)
    requires forall i :: 0 <= i < |s| ==> IsQuantityChar(s[i])
    ensures !HasBlockTag(s)
  {
    TagsAreNoQuantities();
    forall tag | tag in TAGS
      ensures !Contains(s, tag)
    {
      if Contains(s, tag) {
        CharsOfContained(s, tag);
        assert false;
      }
    }
  }

  lemma QuotedUnquotes(s: string)
    requires forall i :: 0 <= i < |s| ==> IsPlainChar(s[i])
    ensures RemoveQuotes(Print(String(s))) == s
  {
    PlainTextUnquotes(s);
    assert Quote(s)[1..] == s + "\"";
  }

  /** A quantity reads back as its number and contains no tag. */
  lemma QuantityText(n: nat)
    requires n < U64_LIMIT
    ensures RemoveQuotes(Print(Quantity(n))) == "0x" + LowerHex(n)
    ensures !HasBlockTag("0x" + LowerHex(n))
    ensures ParseBlock("0x" + LowerHex(n)) == Block(n)
  {
    hide LowerHex, Print, RemoveQuotes, HasBlockTag, FromStrRadix16;
    var text := "0x" + LowerHex(n);
    LowerHexShape(n);
    QuotedUnquotes(text);
    PlainTextHoldsNoTag(text);
    assert text[2..] == LowerHex(n);
    HexRoundTrip(n);
  }

  lemma SetParamKeepsPosition(tx: Value, position: nat, v: Value)
    requires BlockPosition(tx) == Some(position) && tx.Object? && position < |Field(tx, "params").items|
    ensures BlockPosition(SetParam(tx, position, v)) == Some(position)
    ensures BlockText(SetParam(tx, position, v), position) == RemoveQuotes(Print(v))
  {
    var list := Array(Field(tx, "params").items[position := v]);
    SetLaws(tx, "params", list, list, "params");
    SetLaws(tx, "params", list, list, "method");
  }

  lemma QuantityUnquotes(n: nat)
    ensures RemoveQuotes(Print(Quantity(n))) == "0x" + LowerHex(n)
  {
    LowerHexShape(n);
    QuotedUnquotes("0x" + LowerHex(n));
  }

  /** Rewriting never shortens a block parameter below two characters, nor lengthens one that is. */
  lemma RewritingKeepsTooShort(tx: Value, named: NamedBlocknumbers)
    ensures TooShort(ReplaceBlockTags(tx, named)) <==> TooShort(tx)
  {
    hide RemoveQuotes, Print, LowerHex;
    if ReplaceBlockTags(tx, named) != tx {
      var position := BlockPosition(tx).value;
      TaggedParamExists(tx, position);
      var n := NumberOf(TagIn(BlockText(tx, position)), named);
      SetParamKeepsPosition(tx, position, Quantity(n));
      QuantityUnquotes(n);
      PanicsIffTooShort(tx, named);
    }
  }

  /** A request for a known `latest` or `finalized` is rewritten to exactly the request that
      spells the number out. That request names that number, whatever the tags mean later, and
      rewriting it again changes nothing. */
  lemma RewriteRoundTrip(tx: Value, named: NamedBlocknumbers, position: nat, later: NamedBlocknumbers)
    requires BlockPosition(tx) == Some(position)
    requires TagIn(BlockText(tx, position)) in {Latest, Finalized}
    requires named.Fit() && NumberOf(TagIn(BlockText(tx, position)), named) != 0
    ensures tx.Object? && position < |Field(tx, "params").items|
    ensures var n := NumberOf(TagIn(BlockText(tx, position)), named);
            var out := ReplaceBlockTags(tx, named);
            && out == SetParam(tx, position, Quantity(n))
            && !HasBlockTag(BlockText(out, position))
            && GetBlockNumberFromRequest(out, later) == Block(n)
            && ReplaceBlockTags(out, later) == out
  {
    TaggedParamExists(tx, position);
    var n := NumberOf(TagIn(BlockText(tx, position)), named);
    QuantityText(n);
    SetParamKeepsPosition(tx, position, Quantity(n));
    NoTagMeansNoTag("0x" + LowerHex(n));
  }

  /** `latest` at two different heads never shares a key. */
  lemma HeadsNeverShareKeys(tx: Value, position: nat, a: NamedBlocknumbers, b: NamedBlocknumbers)
    requires BlockPosition(tx) == Some(position) && TagIn(BlockText(tx, position)) == Latest
    requires a.Fit() && b.Fit() && a.latest != 0 && b.latest != 0
    ensures ReplaceBlockTags(tx, a) == ReplaceBlockTags(tx, b) <==> a.latest == b.latest
  {
    RewriteRoundTrip(tx, a, position, a);
    RewriteRoundTrip(tx, b, position, a);
  }

  // ---------------------------------------------------------------------------
  // Which block a request names

  /** A request of a method, with these parameters. */
  ghost predicate Calls(tx: Value, name: string, items: seq<Value>) {
    Get(tx, "method") == Some(String(name)) && Get(tx, "params") == Some(Array(items))
  }

  lemma PositionIs(tx: Value, name: string, items: seq<Value>)
    requires Calls(tx, name, items) && items != []
    ensures name in {"eth_getBalance", "eth_getTransactionCount", "eth_getCode", "eth_call"} ==>
              BlockPosition(tx) == Some(1)
    ensures name == "eth_getStorageAt" ==> BlockPosition(tx) == Some(2)
    ensures (name in {"eth_getBlockTransactionCountByNumber", "eth_getUncleCountByBlockNumber",
                      "eth_getBlockByNumber", "eth_getTransactionByBlockNumberAndIndex",
                      "eth_getUncleByBlockNumberAndIndex"}) ==> BlockPosition(tx) == Some(0)
  {
  }

  lemma QuantityIsRead(tx: Value, items: seq<Value>, position: nat, n: nat, named: NamedBlocknumbers)
    requires BlockPosition(tx) == Some(position) && Field(tx, "params") == Array(items) && position < |items|
    requires items[position] == String("0x" + LowerHex(n)) && n < U64_LIMIT
    ensures GetBlockNumberFromRequest(tx, named) == Block(n) && ReplaceBlockTags(tx, named) == tx
  {
    QuantityText(n);
    NoTagMeansNoTag("0x" + LowerHex(n));
    hide LowerHex, RemoveQuotes, Print, ParseBlock, TagIn;
  }

  /** The second parameter names the block, whatever the others are. */
  lemma SecondNamesBlock(tx: Value, name: string, items: seq<Value>, n: nat, named: NamedBlocknumbers)
    requires name in {"eth_getBalance", "eth_getTransactionCount", "eth_getCode", "eth_call"}
    requires Calls(tx, name, items) && |items| >= 2 && items[1] == String("0x" + LowerHex(n)) && n < U64_LIMIT
    ensures GetBlockNumberFromRequest(tx, named) == Block(n) && ReplaceBlockTags(tx, named) == tx
  {
    hide GetBlockNumberFromRequest, ReplaceBlockTags, BlockPosition, LowerHex;
    PositionIs(tx, name, items);
    QuantityIsRead(tx, items, 1, n, named);
  }

  /** The third parameter of `eth_getStorageAt` does, behind the storage slot. */
  lemma ThirdNamesBlock(tx: Value, items: seq<Value>, n: nat, named: NamedBlocknumbers)
    requires Calls(tx, "eth_getStorageAt", items)
    requires |items| >= 3 && items[2] == String("0x" + LowerHex(n)) && n < U64_LIMIT
    ensures GetBlockNumberFromRequest(tx, named) == Block(n) && ReplaceBlockTags(tx, named) == tx
  {
    hide GetBlockNumberFromRequest, ReplaceBlockTags, BlockPosition, LowerHex;
    PositionIs(tx, "eth_getStorageAt", items);
    QuantityIsRead(tx, items, 2, n, named);
  }

  /** The first parameter does, for the methods that ask for a block or something in it. */
  lemma FirstNamesBlock(tx: Value, name: string, items: seq<Value>, n: nat, named: NamedBlocknumbers)
    requires name in {"eth_getBlockTransactionCountByNumber", "eth_getUncleCountByBlockNumber",
                      "eth_getBlockByNumber", "eth_getTransactionByBlockNumberAndIndex",
                      "eth_getUncleByBlockNumberAndIndex"}
    requires Calls(tx, name, items) && items != [] && items[0] == String("0x" + LowerHex(n)) && n < U64_LIMIT
    ensures GetBlockNumberFromRequest(tx, named) == Block(n) && ReplaceBlockTags(tx, named) == tx
  {
    hide GetBlockNumberFromRequest, ReplaceBlockTags, BlockPosition, LowerHex;
    PositionIs(tx, name, items);
    QuantityIsRead(tx, items, 0, n, named);
  }

  /** No other request names a block, nor is one without parameters, or without a list of them,
      rewritten. */
  lemma OthersNameNoBlock(tx: Value, named: NamedBlocknumbers)
    requires
      || !Field(tx, "params").Array? || Field(tx, "params").items == [] || !Field(tx, "method").String?
      || Field(tx, "method").s !in {
           "eth_getBalance", "eth_getTransactionCount", "eth_getCode", "eth_call", "eth_getStorageAt",
           "eth_getBlockTransactionCountByNumber", "eth_getUncleCountByBlockNumber", "eth_getBlockByNumber",
           "eth_getTransactionByBlockNumberAndIndex", "eth_getUncleByBlockNumberAndIndex"}
    ensures GetBlockNumberFromRequest(tx, named) == NoBlock && ReplaceBlockTags(tx, named) == tx
  {
  }

  /** Behind any two characters, the digits of a number are read, in any case, with any zeros before
      them, and nothing that is no number or too large is. */
  lemma PrefixIsSkipped(prefix: string, n: nat, zeros: nat, digits: string)
    requires |prefix| == 2 && SameButCase(digits, LowerHex(n))
    ensures ParseBlock(prefix + (seq(zeros, _ => '0') + digits)) == if n < U64_LIMIT then Block(n) else NoBlock
    ensures ParseBlock(prefix) == NoBlock
  {
    var text := seq(zeros, _ => '0') + digits;
    RadixIsExact(n, zeros, digits, "  ", 1);
    assert (prefix + text)[2..] == text;
    assert prefix[2..] == "";
  }

  lemma TagsAreRecognised()
    ensures TagIn("latest") == Latest && TagIn("earliest") == Earliest && TagIn("safe") == Safe
    ensures TagIn("finalized") == Finalized && TagIn("pending") == Pending
  {
    HoldsItself("latest");
    HoldsItself("earliest");
    HoldsItself("safe");
    HoldsItself("finalized");
    HoldsItself("pending");
    EarliestIsNotLatest();
    LongerMisses("safe", "latest");
    LongerMisses("safe", "earliest");
    hide Contains;
    LacksChar("finalized", "latest", 4);
    LacksChar("finalized", "earliest", 2);
    LacksChar("finalized", "safe", 0);
    LacksChar("pending", "latest", 0);
    LacksChar("pending", "earliest", 2);
    LacksChar("pending", "safe", 0);
    LacksChar("pending", "finalized", 0);
  }

  lemma HoldsItself(t: string)
    ensures Contains(t, t)
  {
    assert OccursAt(t, t, 0);
  }

  lemma EarliestIsNotLatest()
    ensures !Contains("earliest", "latest")
  {
    var s, t := "earliest", "latest";
    forall i | 0 <= i <= |s|
      ensures !OccursAt(s, t, i)
    {
      if i <= 2 {
        assert s[i..i + |t|][0] == s[i] != t[0];
      }
    }
  }

  lemma TagIsRead(tx: Value, items: seq<Value>, position: nat, tag: string)
    requires BlockPosition(tx) == Some(position) && Field(tx, "params") == Array(items) && position < |items|
    requires items[position] == String(tag) && tag in {"latest", "earliest", "safe", "finalized", "pending"}
    ensures BlockText(tx, position) == tag && tx.Object?
  {
    PlainTags(tag);
    QuotedUnquotes(tag);
    hide RemoveQuotes, Print;
  }

  lemma PlainTags(tag: string)
    requires tag in {"latest", "earliest", "safe", "finalized", "pending"}
    ensures forall i :: 0 <= i < |tag| ==> IsPlainChar(tag[i])
  {
  }

  /** A tag as the block parameter means the number it stands for. `latest` and `finalized` are
      replaced by it, once it is known; a request with another tag, or with a tag whose number is not
      known yet, is left as it is. */
  lemma TagsMeanTheirNumbers(
    tx: Value, items: seq<Value>, position: nat, tag: string, named: NamedBlocknumbers)
    requires BlockPosition(tx) == Some(position) && Field(tx, "params") == Array(items) && position < |items|
    requires items[position] == String(tag) && tag in {"latest", "earliest", "safe", "finalized", "pending"}
    ensures tx.Object?
    ensures tag == "latest" ==>
              && GetBlockNumberFromRequest(tx, named) == Block(named.latest)
              && ReplaceBlockTags(tx, named)
                 == if named.latest == 0 then tx
                    else Set(tx, "params", Array(items[position := String("0x" + LowerHex(named.latest))]))
    ensures tag == "finalized" ==>
              && GetBlockNumberFromRequest(tx, named) == Block(named.finalized)
              && ReplaceBlockTags(tx, named)
                 == if named.finalized == 0 then tx
                    else Set(tx, "params", Array(items[position := String("0x" + LowerHex(named.finalized))]))
    ensures tag == "earliest" ==> GetBlockNumberFromRequest(tx, named) == Block(named.earliest)
    ensures tag == "safe" ==> GetBlockNumberFromRequest(tx, named) == Block(named.safe)
    ensures tag == "pending" ==> GetBlockNumberFromRequest(tx, named) == Block(named.pending)
    ensures tag in {"earliest", "safe", "pending"} ==> ReplaceBlockTags(tx, named) == tx
  {
    TagsAreRecognised();
    TagIsReplaced(tx, items, position, tag, named);
    hide TagIn, LowerHex, BlockPosition, GetBlockNumberFromRequest, ReplaceBlockTags;
  }

  lemma TagIsReplaced(tx: Value, items: seq<Value>, position: nat, tag: string, named: NamedBlocknumbers)
    requires BlockPosition(tx) == Some(position) && Field(tx, "params") == Array(items) && position < |items|
    requires items[position] == String(tag) && tag in {"latest", "earliest", "safe", "finalized", "pending"}
    requires TagIn(tag) != NoTag
    ensures var n := NumberOf(TagIn(tag), named);
            && tx.Object?
            && GetBlockNumberFromRequest(tx, named) == Block(n)
            && ReplaceBlockTags(tx, named)
               == if TagIn(tag) in {Latest, Finalized} && n != 0
                  then Set(tx, "params", Array(items[position := String("0x" + LowerHex(n))])) else tx
  {
    TagIsRead(tx, items, position, tag);
    hide BlockText, TagIn, LowerHex, BlockPosition, ParseBlock, Set;
  }

  // ---------------------------------------------------------------------------
  // What the substring gates guarantee

  /** The block number of a request that does not depend on what the tags mean. */
  function PlainNumber(tx: Value): BlockNumber {
    match BlockPosition(tx)
    case None => NoBlock
    case Some(position) =>
      var text := BlockText(tx, position);
      if TagIn(text) != NoTag then NoBlock else ParseBlock(text)
  }

  /** A request whose text holds no tag names the same block whatever the tags mean,
      and is not rewritten. Only the text of the whole request is searched, while the number is
      read from one parameter stripped of quotation marks. */
  lemma TaglessRequestsAreFixed(tx: Value, named: NamedBlocknumbers)
    requires !HasBlockTag(Print(tx))
    ensures GetBlockNumberFromRequest(tx, named) == PlainNumber(tx)
    ensures ReplaceBlockTags(tx, named) == tx
  {
    if BlockPosition(tx).Some? {
      var position := BlockPosition(tx).value;
      var text := BlockText(tx, position);
      if TagIn(text) != NoTag {
        TaggedParamExists(tx, position);
        var param := Item(Field(tx, "params"), position);
        NoTagMeansNoTag(text);
        var tag :| tag in TAGS && Contains(text, tag);
        TagsAreNames();
        PrintIsSafe(param);
        UnquotingAddsNoWord(Print(param), tag);
        PathInText(tx, "params", position);
        ContainsTransitive(Print(tx), Print(param), tag);
        assert false;
      }
    }
  }

  /** Whenever `can_cache` accepts a request, its block number is the same under any two
      meanings of the tags. */
  lemma CachedNumbersNeverMove(tx: Value, rx: string, a: NamedBlocknumbers, b: NamedBlocknumbers)
    requires CanCache(Print(tx), rx)
    ensures GetBlockNumberFromRequest(tx, a) == GetBlockNumberFromRequest(tx, b) == PlainNumber(tx)
  {
    TaglessRequestsAreFixed(tx, a);
    TaglessRequestsAreFixed(tx, b);
  }

  lemma MemberValueInText(tx: Value, key: string, part: string)
    requires Get(tx, key).Some? && Contains(Print(Get(tx, key).value), part)
    ensures Contains(Print(tx), part)
  {
    hide Contains;
    MemberInText(tx.members, key);
    ContainsInContext("{", PrintMembers(tx.members), "}", Print(Get(tx, key).value));
    ContainsTransitive(Print(tx), Print(Get(tx, key).value), part);
  }

  /** A request for one of the methods whose answers move is never cacheable, wherever in the
      request the method comes. */
  lemma MovingMethodsAreNeverCached(tx: Value, name: string)
    requires name in {"eth_blockNumber", "eth_getTransactionCount", "eth_subscribe", "eth_unsubscribe"}
    requires Get(tx, "method") == Some(String(name))
    ensures !CacheMethod(Print(tx))
  {
    BlacklistedNames(name);
    hide METHOD_BLACKLIST;
    QuotedHoldsItself(name);
    hide Contains, Print, IsName;
    MemberValueInText(tx, "method", name);
  }

  lemma BlacklistedNames(name: string)
    requires name in {"eth_blockNumber", "eth_getTransactionCount", "eth_subscribe", "eth_unsubscribe"}
    ensures name in METHOD_BLACKLIST && IsName(name)
  {
    assert METHOD_BLACKLIST[0] in METHOD_BLACKLIST && METHOD_BLACKLIST[1] in METHOD_BLACKLIST;
    assert METHOD_BLACKLIST[2] in METHOD_BLACKLIST && METHOD_BLACKLIST[3] in METHOD_BLACKLIST;
    MethodsAreNames();
    hide IsName;
  }

  lemma QuotedHoldsItself(name: string)
    requires IsName(name)
    ensures Contains(Print(String(name)), name)
  {
    PlainTextUnquotes(name);
    assert OccursAt(name, name, 0);
    ContainsInContext("\"", name, "\"", name);
  }

  /** An answer whose result is null, or that has an error member, is never cached. */
  lemma FailuresAreNeverCached(answer: Value)
    requires Get(answer, "result") == Some(Null) || Get(answer, "error").Some?
    ensures !CacheResult(Print(answer))
  {
    if Get(answer, "result") == Some(Null) {
      assert OccursAt("null", "null", 0);
      MemberValueInText(answer, "result", "null");
    } else {
      PlainTextUnquotes("error");
      MemberInText(answer.members, "error");
      ContainsInContext("{", PrintMembers(answer.members), "}", "error");
    }
    assert "null" in RESULT_BLACKLIST && "error" in RESULT_BLACKLIST;
  }

  lemma {:induction false} MembersHoldName(ms: seq<Member>, t: string)
    requires IsName(t) && ms != []
    ensures Contains(PrintMembers(ms), t) <==>
            (Contains(Quote(ms[0].key), t) || Contains(Print(ms[0].value), t) || Contains(PrintMembers(ms[1..]), t))
  {
    MissesSeparator(Quote(ms[0].key), ':', Print(ms[0].value), t);
    if |ms| > 1 {
      MissesSeparator(PrintMember(ms[0]), ',', PrintMembers(ms[1..]), t);
    } else {
      assert !OccursAt("", t, 0);
    }
  }

  lemma {:induction false} InsertHoldsName(ms: seq<Member>, key: string, v: Value, w: Value, t: string)
    requires IsName(t) && !Contains(Print(v), t) && !Contains(Print(w), t)
    ensures Contains(PrintMembers(Insert(ms, key, v)), t) <==> Contains(PrintMembers(Insert(ms, key, w)), t)
  {
    var a, b := Insert(ms, key, v), Insert(ms, key, w);
    MembersHoldName(a, t);
    MembersHoldName(b, t);
    if !GoesFirst(ms, key) && ms[0].key != key {
      InsertHoldsName(ms[1..], key, v, w, t);
      assert a[1..] == Insert(ms[1..], key, v) && b[1..] == Insert(ms[1..], key, w);
    } else {
      assert a[1..] == b[1..];
    }
  }

  lemma ObjectHoldsName(ms: seq<Member>, t: string)
    requires IsName(t)
    ensures Contains(Print(Object(ms)), t) <==> Contains(PrintMembers(ms), t)
  {
    var inner := PrintMembers(ms);
    MissesSeparator("", '{', inner, t);
    assert "" + ['{'] + inner == "{" + inner;
    MissesSeparator("{" + inner, '}', "", t);
    assert "{" + inner + ['}'] + "" == "{" + inner + "}";
    assert !OccursAt("", t, 0);
  }

  lemma IdNeverMattersToName(tx: Value, id: nat, t: string)
    requires tx.Object? && IsName(t) && |t| >= 4 && t != "null"
    ensures Contains(Print(Set(tx, "id", Null)), t) <==> Contains(Print(Set(tx, "id", Number(id))), t)
  {
    DecimalHoldsNoName(id, t);
    assert !Contains(Print(Null), t);
    ObjectHoldsName(Insert(tx.members, "id", Null), t);
    ObjectHoldsName(Insert(tx.members, "id", Number(id)), t);
    InsertHoldsName(tx.members, "id", Null, Number(id), t);
  }

  /** The gate on reading, applied to the text with a null id, and the gate on writing, applied
      to the text with the id restored, agree about tags. */
  lemma IdNeverMattersToTags(tx: Value, id: nat)
    requires tx.Object?
    ensures HasBlockTag(Print(Set(tx, "id", Null))) <==> HasBlockTag(Print(Set(tx, "id", Number(id))))
  {
    TagsAreNames();
    hide Print, Contains, Set, IsName;
    forall tag | tag in TAGS { IdNeverMattersToName(tx, id, tag); }
  }
}
