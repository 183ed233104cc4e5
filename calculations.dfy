/** Profit-and-loss arithmetic of the trade forms: the crypto fee formula,
    the plain PnL of a position sized in units, and the crypto PnL of a
    position sized in quote currency. */
module Calculations {
  import Js
  import Reals
  import TradeParser

  /** `CRYPTO_FEE_RATE`: 0.05 % per side. */
  const CryptoFeeRate: real := 0.0005

  /** `calculateCryptoFees`: the fee rate charged on the entry value and on
      the exit value of `qty / entry` coins; nothing for a non-positive entry
      price or size. */
  function CalculateCryptoFees(entry: real, exit: real, qty: real, feeRate: real): (r: real)
    ensures entry <= 0.0 || qty <= 0.0 ==> r == 0.0
    ensures entry > 0.0 && qty > 0.0 ==> r == qty * feeRate + exit * (qty / entry) * feeRate
  {
    if entry <= 0.0 || qty <= 0.0 then 0.0
    else
      var qtyCoin := qty / entry;
      EntryValue(entry, qty);
      entry * qtyCoin * feeRate + exit * qtyCoin * feeRate
  }

  /** `qty / entry` coins bought at `entry` cost `qty`. */
  lemma EntryValue(entry: real, qty: real)
    requires entry > 0.0
    ensures entry * (qty / entry) == qty
  {
  }

  /** Closing at the entry price costs the fee rate twice on the size. */
  lemma CryptoFeesAtEntry(entry: real, qty: real, feeRate: real)
    requires entry > 0.0 && qty > 0.0
    ensures CalculateCryptoFees(entry, entry, qty, feeRate) == 2.0 * qty * feeRate
  {
    EntryValue(entry, qty);
  }

  /** Fees are never negative for a non-negative rate and exit price. */
  lemma CryptoFeesNonNegative(entry: real, exit: real, qty: real, feeRate: real)
    requires feeRate >= 0.0 && exit >= 0.0
    ensures CalculateCryptoFees(entry, exit, qty, feeRate) >= 0.0
  {
    if entry > 0.0 && qty > 0.0 {
      var coins := qty / entry;
      assert coins > 0.0;
      assert qty * feeRate >= 0.0;
      assert exit * coins >= 0.0;
      assert exit * coins * feeRate >= 0.0;
    }
  }

  /** The gross result of a position of `amount` units: the price move in the
      position's favour times the amount. */
  function Gross(t: TradeParser.TradeType, entry: real, exit: real, amount: real): real
  {
    match t
    case Long => (exit - entry) * amount
    case Short => (entry - exit) * amount
  }

  /** A short position gains exactly what the long one loses. */
  lemma GrossMirror(entry: real, exit: real, amount: real)
    ensures Gross(TradeParser.Short, entry, exit, amount) == -Gross(TradeParser.Long, entry, exit, amount)
  {
  }

  /** For a positive amount, a long position gains exactly when the price rises. */
  lemma GrossSign(entry: real, exit: real, amount: real)
    requires amount > 0.0
    ensures Gross(TradeParser.Long, entry, exit, amount) > 0.0 <==> exit > entry
    ensures Gross(TradeParser.Short, entry, exit, amount) > 0.0 <==> exit < entry
  {
    var up := exit - entry;
    assert Gross(TradeParser.Short, entry, exit, amount) == -(up * amount);
    if up > 0.0 {
      Reals.MulPositive(up, amount);
    } else if up < 0.0 {
      Reals.MulPositive(-up, amount);
      assert (-up) * amount == -(up * amount);
    } else {
      assert up * amount == 0.0;
    }
  }

  /** The `{ pnl, pnlPct }` of the PnL helpers. */
  datatype PnlResult = PnlResult(pnl: real, pnlPct: Js.Num)

  /** `calculatePnL`: the gross less fees, rounded to cents; the percentage of
      the entry value, 0 for a non-positive size, and not finite when the
      entry value is zero. */
  function CalculatePnL(t: TradeParser.TradeType, entry: real, exit: real, qty: real, fees: real): (r: PnlResult)
    ensures Gross(t, entry, exit, qty) - fees - 0.005 < r.pnl <= Gross(t, entry, exit, qty) - fees + 0.005
    ensures qty <= 0.0 ==> r.pnlPct == Js.Finite(0.0)
    ensures qty > 0.0 && entry != 0.0 ==> r.pnlPct == Js.Finite(Js.Round2(r.pnl / (entry * qty) * 100.0))
    ensures qty > 0.0 && entry == 0.0 ==> !r.pnlPct.IsFinite()
  {
    var pnl := Js.Round2(Gross(t, entry, exit, qty) - fees);
    var pct := if qty > 0.0 then Js.ScaleNum(Js.Div(pnl, entry * qty), 100.0) else Js.Finite(0.0);
    Js.Round2OfZero();
    PnlResult(pnl, Js.Round2Num(pct))
  }

  /** Closing at the entry price without fees makes nothing, in either direction. */
  lemma PnLAtEntry(t: TradeParser.TradeType, entry: real, qty: real)
    ensures CalculatePnL(t, entry, entry, qty, 0.0).pnl == 0.0
  {
    assert Gross(t, entry, entry, qty) == 0.0;
    Js.Round2OfZero();
  }

  /** `calculateCryptoPnL`: the gross on `qty / entry` coins less fees, rounded
      to cents, and its percentage of the margin; zeros for a non-positive
      entry price, a zero percentage for a non-positive margin. */
  function CalculateCryptoPnL(t: TradeParser.TradeType, entry: real, exit: real, qty: real, fees: real,
                              positionMargin: real): (r: PnlResult)
    ensures r.pnlPct.IsFinite()
    ensures entry <= 0.0 ==> r == PnlResult(0.0, Js.Finite(0.0))
    ensures entry > 0.0 && positionMargin <= 0.0 ==> r.pnlPct == Js.Finite(0.0)
    ensures entry > 0.0 && positionMargin > 0.0 ==>
              r.pnlPct == Js.Finite(Js.Round2(r.pnl / positionMargin * 100.0))
  {
    if entry <= 0.0 then PnlResult(0.0, Js.Finite(0.0))
    else
      var qtyCoin := qty / entry;
      var pnl := Js.Round2(Gross(t, entry, exit, qtyCoin) - fees);
      Js.Round2OfZero();
      PnlResult(pnl, Js.Finite(Js.Round2(if positionMargin > 0.0 then pnl / positionMargin * 100.0 else 0.0)))
  }

  /** The crypto PnL is the plain PnL of the coin quantity `qty / entry`. */
  lemma CryptoPnLIsCoinPnL(t: TradeParser.TradeType, entry: real, exit: real, qty: real, fees: real,
                           positionMargin: real)
    requires entry > 0.0
    ensures CalculateCryptoPnL(t, entry, exit, qty, fees, positionMargin).pnl
         == CalculatePnL(t, entry, exit, qty / entry, fees).pnl
  {
  }

  /** Closing at the entry price without fees makes nothing, and nothing in
      percent. */
  lemma CryptoPnLAtEntry(t: TradeParser.TradeType, entry: real, qty: real, positionMargin: real)
    ensures CalculateCryptoPnL(t, entry, entry, qty, 0.0, positionMargin) == PnlResult(0.0, Js.Finite(0.0))
  {
    if entry > 0.0 {
      assert Gross(t, entry, entry, qty / entry) == 0.0;
      Js.Round2OfZero();
      if positionMargin > 0.0 {
        assert 0.0 / positionMargin * 100.0 == 0.0;
      }
    }
  }
}
