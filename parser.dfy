/** src/indexer/parser.ts: `parseLogs`, which dispatches a raw log on its first topic against
    the three fund event signatures. The ethers helpers it calls are parameters: `address`
    stands for `getAddress(hexZeroPad(topic, 20))` and `words` for
    `defaultAbiCoder.decode(["uint256", "uint256", "uint256"], data)`; `None` means that the
    call threw, which `parseLogs` catches and turns into `null`. */
module Parser {
  import opened Wrappers
  import opened Text

  /** keccak-256 of "Investment(address,uint256,uint256,uint256)" */
  const InvestmentTopic: string := "0x3bdff14eed6ddd6ca85e178ed7df644a6a676c0796374ce875e380bc74a28e78"
  /** keccak-256 of "Redemption(address,uint256,uint256,uint256)" */
  const RedemptionTopic: string := "0xdde84b7d9f1e63dc5da295c5bff0bd33e2f49172e0cecbdf8028dcb61a24c83d"
  /** keccak-256 of "MetricsUpdated(uint256,uint256,uint256)" */
  const MetricsUpdatedTopic: string := "0x30b47c3a685e507da227a870550a387d376e03da27ad5b6a1d8c7517eb2d9b2f"

  const Uint256Limit: nat := 0x1_0000_0000_0000_0000_0000_0000_0000_0000_0000_0000_0000_0000_0000_0000_0000_0000

  type Uint256 = n: nat | n < Uint256Limit

  /** The three data words of an event, in the order they are encoded. */
  datatype Words = Words(first: Uint256, second: Uint256, third: Uint256)

  /** The fields of an `ethers.providers.Log` the indexer reads. */
  datatype Log = Log(address: string, topics: seq<string>, data: string, transactionHash: string, logIndex: nat)

  datatype Decoders = Decoders(address: string -> Option<string>, words: string -> Option<Words>)

  /** `ParsedFundEvent`; every amount is the decimal text of a decoded word. */
  datatype FundEvent =
    | Investment(investor: string, usdAmount: string, sharesIssued: string, sharePrice: string)
    | Redemption(investor: string, shares: string, usdAmount: string, sharePrice: string)
    | MetricsUpdated(totalAssetValue: string, sharesSupply: string, sharePrice: string)

  predicate IsFundTopic(t: string)
  {
    t == InvestmentTopic || t == RedemptionTopic || t == MetricsUpdatedTopic
  }

  /** `parseLogs(log)`: the decoded event, or `None` for `null`. An absent `topics[0]` equals
      no signature; an absent `topics[1]` makes `hexZeroPad` throw. */
  function ParseLogs(log: Log, dec: Decoders): (r: Option<FundEvent>)
    ensures r.Some? ==> |log.topics| >= 1 && IsFundTopic(log.topics[0])
  {
    if |log.topics| == 0 then None
    else if log.topics[0] == InvestmentTopic then
      if |log.topics| < 2 then None
      else match (dec.address(log.topics[1]), dec.words(log.data))
        case (Some(investor), Some(w)) =>
          Some(Investment(investor, NatToString(w.first), NatToString(w.second), NatToString(w.third)))
        case _ => None
    else if log.topics[0] == RedemptionTopic then
      if |log.topics| < 2 then None
      else match (dec.address(log.topics[1]), dec.words(log.data))
        case (Some(investor), Some(w)) =>
          Some(Redemption(investor, NatToString(w.first), NatToString(w.second), NatToString(w.third)))
        case _ => None
    else if log.topics[0] == MetricsUpdatedTopic then
      match dec.words(log.data)
      case Some(w) =>
        Some(MetricsUpdated(NatToString(w.first), NatToString(w.second), NatToString(w.third)))
      case None => None
    else None
  }

  /** The three signatures hash to distinct topics, so at most one branch can fire. */
  lemma TopicsDistinct()
    ensures InvestmentTopic != RedemptionTopic
    ensures InvestmentTopic != MetricsUpdatedTopic
    ensures RedemptionTopic != MetricsUpdatedTopic
  {
  }

  /** The kind of the event is decided by the first topic alone. */
  lemma {:induction false} KindFollowsTopic(log: Log, dec: Decoders)
    requires ParseLogs(log, dec).Some?
    ensures var e := ParseLogs(log, dec).value;
      && (e.Investment? <==> log.topics[0] == InvestmentTopic)
      && (e.Redemption? <==> log.topics[0] == RedemptionTopic)
      && (e.MetricsUpdated? <==> log.topics[0] == MetricsUpdatedTopic)
  {
    TopicsDistinct();
  }

  /** Any first topic other than the three signatures, or none at all, gives `null`. */
  lemma UnknownTopicIgnored(log: Log, dec: Decoders)
    requires |log.topics| == 0 || !IsFundTopic(log.topics[0])
    ensures ParseLogs(log, dec) == None
  {
  }

  /** An Investment log yields the checksummed investor from `topics[1]` and the data words
      in the order usdAmount, sharesIssued, sharePrice, each as the decimal text of its
      value; if either decoding throws, the result is `null`. */
  lemma InvestmentFields(log: Log, dec: Decoders)
    requires |log.topics| >= 2 && log.topics[0] == InvestmentTopic
    ensures var r := ParseLogs(log, dec);
      && (r.Some? <==> dec.address(log.topics[1]).Some? && dec.words(log.data).Some?)
      && (r.Some? ==>
            var w := dec.words(log.data).value;
            && r.value.Investment?
            && r.value.investor == dec.address(log.topics[1]).value
            && DecimalValue(r.value.usdAmount) == w.first
            && DecimalValue(r.value.sharesIssued) == w.second
            && DecimalValue(r.value.sharePrice) == w.third)
  {
    if dec.words(log.data).Some? {
      var w := dec.words(log.data).value;
      DecimalRoundTrip(w.first);
      DecimalRoundTrip(w.second);
      DecimalRoundTrip(w.third);
    }
  }

  /** A Redemption log reads its data words in a different order from an Investment log:
      shares, usdAmount, sharePrice. */
  lemma RedemptionFields(log: Log, dec: Decoders)
    requires |log.topics| >= 2 && log.topics[0] == RedemptionTopic
    ensures var r := ParseLogs(log, dec);
      && (r.Some? <==> dec.address(log.topics[1]).Some? && dec.words(log.data).Some?)
      && (r.Some? ==>
            var w := dec.words(log.data).value;
            && r.value.Redemption?
            && r.value.investor == dec.address(log.topics[1]).value
            && DecimalValue(r.value.shares) == w.first
            && DecimalValue(r.value.usdAmount) == w.second
            && DecimalValue(r.value.sharePrice) == w.third)
  {
    TopicsDistinct();
    if dec.words(log.data).Some? {
      var w := dec.words(log.data).value;
      DecimalRoundTrip(w.first);
      DecimalRoundTrip(w.second);
      DecimalRoundTrip(w.third);
    }
  }

  /** A MetricsUpdated log decodes totalAssetValue, sharesSupply, sharePrice from its data
      and reads no indexed topic: the address decoder and the topics after the first do not
      matter. */
  lemma MetricsFields(log: Log, dec: Decoders, other: string -> Option<string>)
    requires |log.topics| >= 1 && log.topics[0] == MetricsUpdatedTopic
    ensures var r := ParseLogs(log, dec);
      && r == ParseLogs(log.(topics := [MetricsUpdatedTopic]), dec.(address := other))
      && (r.Some? <==> dec.words(log.data).Some?)
      && (r.Some? ==>
            var w := dec.words(log.data).value;
            && r.value.MetricsUpdated?
            && DecimalValue(r.value.totalAssetValue) == w.first
            && DecimalValue(r.value.sharesSupply) == w.second
            && DecimalValue(r.value.sharePrice) == w.third)
  {
    TopicsDistinct();
    if dec.words(log.data).Some? {
      var w := dec.words(log.data).value;
      DecimalRoundTrip(w.first);
      DecimalRoundTrip(w.second);
      DecimalRoundTrip(w.third);
    }
  }

  /** An Investment or Redemption log without an indexed investor topic gives `null`. */
  lemma MissingInvestorTopicIgnored(log: Log, dec: Decoders)
    requires |log.topics| == 1 && log.topics[0] != MetricsUpdatedTopic
    ensures ParseLogs(log, dec) == None
  {
  }
}
