/** src/api/investment/investment.service.ts: the unsigned invest and redeem transactions
    the API hands to the investor's wallet. The contract call encoders are inputs. */
module InvestmentService {
  import opened Wrappers
  import opened Text
  import opened Errors

  /** A `FundToken` row, found by its compound key (address, chainId). */
  datatype FundToken = FundToken(address: string, chainId: int)

  type FundTable = map<(string, int), FundToken>

  /** `{ from, to, data, value }` */
  datatype UnsignedTx = UnsignedTx(from: string, to: string, data: string, value: string)

  /** `createInvestTransactionData(investor, amount)` and
      `createRedeemTransactionData(investor, shares)`; the amount is a JavaScript number. */
  datatype Encoders = Encoders(
    invest: (string, real) -> Result<string, Error>,
    redeem: (string, real) -> Result<string, Error>)

  /** The text of the not-found error. */
  function FundNotFoundMessage(fund: string, chainId: int): string
  {
    "FundToken with address " + fund + " and chain " + IntToString(chainId) + " not found"
  }

  function FundNotFound(fund: string, chainId: int): Error
  {
    Raise(APIError, FundNotFoundMessage(fund, chainId), NoDetails)
  }

  /** The lookup, then the record around the encoded call data. */
  function Build(funds: FundTable, investor: string, fund: string, chainId: int, data: Result<string, Error>): Result<UnsignedTx, Error>
  {
    if (fund, chainId) !in funds then Err(FundNotFound(fund, chainId))
    else match data
      case Err(e) => Err(e)
      case Ok(d) => Ok(UnsignedTx(investor, funds[(fund, chainId)].address, d, "0x0"))
  }

  /** `getInvestTransaction(investor, amount, fund, chainId)` */
  function GetInvestTransaction(funds: FundTable, enc: Encoders, investor: string, amount: real, fund: string, chainId: int): (r: Result<UnsignedTx, Error>)
    ensures (fund, chainId) !in funds ==> r == Err(FundNotFound(fund, chainId))
    ensures (fund, chainId) in funds && enc.invest(investor, amount).Err? ==> r == Err(enc.invest(investor, amount).error)
    ensures r.Ok? <==> (fund, chainId) in funds && enc.invest(investor, amount).Ok?
    ensures r.Ok? ==> r.value.from == investor && r.value.to == funds[(fund, chainId)].address
    ensures r.Ok? ==> r.value.data == enc.invest(investor, amount).value && r.value.value == "0x0"
  {
    Build(funds, investor, fund, chainId, enc.invest(investor, amount))
  }

  /** `getRedeemTransaction(investor, shares, fund, chainId)` */
  function GetRedeemTransaction(funds: FundTable, enc: Encoders, investor: string, shares: real, fund: string, chainId: int): (r: Result<UnsignedTx, Error>)
    ensures (fund, chainId) !in funds ==> r == Err(FundNotFound(fund, chainId))
    ensures (fund, chainId) in funds && enc.redeem(investor, shares).Err? ==> r == Err(enc.redeem(investor, shares).error)
    ensures r.Ok? <==> (fund, chainId) in funds && enc.redeem(investor, shares).Ok?
    ensures r.Ok? ==> r.value.from == investor && r.value.to == funds[(fund, chainId)].address
    ensures r.Ok? ==> r.value.data == enc.redeem(investor, shares).value && r.value.value == "0x0"
  {
    Build(funds, investor, fund, chainId, enc.redeem(investor, shares))
  }

  /** The not-found text determines the fund and the chain. */
  lemma FundNotFoundMessageInjective(fund1: string, chain1: int, fund2: string, chain2: int)
    requires FundNotFoundMessage(fund1, chain1) == FundNotFoundMessage(fund2, chain2)
    ensures fund1 == fund2 && chain1 == chain2
  {
    var p := "FundToken with address ";
    var q := " not found";
    var sep := " and chain ";
    var n1 := IntToString(chain1);
    var n2 := IntToString(chain2);
    var core1 := fund1 + sep + n1;
    var core2 := fund2 + sep + n2;
    assert FundNotFoundMessage(fund1, chain1) == p + core1 + q;
    assert FundNotFoundMessage(fund2, chain2) == p + core2 + q;
    PrefixSuffixCancel(p, core1, core2, q);
    assert sep[|sep| - 1] == ' ';
    assert ' ' !in n1 && ' ' !in n2;
    SeparatorSplitsUniquely(fund1, n1, fund2, n2, sep);
    IntToStringInjective(chain1, chain2);
  }

  /** The not-found error names both the fund and the chain: different lookups never give
      the same error. */
  lemma FundNotFoundNamesBoth(fund1: string, chain1: int, fund2: string, chain2: int)
    requires FundNotFound(fund1, chain1) == FundNotFound(fund2, chain2)
    ensures fund1 == fund2 && chain1 == chain2
  {
    assert FundNotFound(fund1, chain1).message == Some(FundNotFoundMessage(fund1, chain1));
    assert FundNotFound(fund2, chain2).message == Some(FundNotFoundMessage(fund2, chain2));
    FundNotFoundMessageInjective(fund1, chain1, fund2, chain2);
  }

  /** Invest and redeem differ only in the encoder they call: on the same lookup both
      address the fund's stored address from the investor, with no value attached. */
  lemma SameEnvelope(funds: FundTable, enc: Encoders, investor: string, amount: real, shares: real, fund: string, chainId: int)
    requires (fund, chainId) in funds
    requires enc.invest(investor, amount).Ok? && enc.redeem(investor, shares).Ok?
    ensures var i := GetInvestTransaction(funds, enc, investor, amount, fund, chainId);
      var r := GetRedeemTransaction(funds, enc, investor, shares, fund, chainId);
      i.Ok? && r.Ok? && i.value.(data := r.value.data) == r.value
  {
  }
}
