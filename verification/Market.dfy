/** Instruments, quotes and the valuations the demo broker derives from them.
    Money is in whole cents; prices and conversion rates are exact reals. */
module Market {
  import opened Rounding

  datatype Option<+T> = None | Some(value: T)

  /** One row of the instrument table. A contract size of zero or less means
      the standard lot of 100000 units. */
  datatype Instrument = Instrument(
    baseCcy: string, profitCcy: string, digits: nat, contractSize: real, allWeek: bool)

  datatype Tick = Tick(bid: real, ask: real)

  /** Everything outside the book that one engine step reads: the instrument
      table, the latest tick of each symbol, and the clock. */
  datatype Feed = Feed(
    listed: map<string, Instrument>, ticks: map<string, Tick>, sessionClock: int, now: int)

  const UNITS_PER_LOT := 10000.0
  const VOLUME_MIN := 1000
  const VOLUME_MAX := 5000000
  const VOLUME_STEP := 1000
  const DEFAULT_LEVERAGE := 100

  const BUY := 0
  const SELL := 1

  predicate ValidVolume(units: int) {
    VOLUME_MIN <= units <= VOLUME_MAX && units % VOLUME_STEP == 0
  }

  function Lots(units: int): real {
    units as real / UNITS_PER_LOT
  }

  function Contract(ins: Instrument): (c: real)
    ensures c > 0.0
  {
    if ins.contractSize > 0.0 then ins.contractSize else 100000.0
  }

  function Pow10(digits: nat): (p: real)
    ensures p >= 1.0
  {
    if digits == 0 then 1.0 else 10.0 * Pow10(digits - 1)
  }

  function RoundPrice(ins: Instrument, price: real): real {
    var p := Pow10(ins.digits);
    Round(price * p) as real / p
  }

  /** Instruments that do not trade all week rest on Saturday and Sunday (UTC). */
  predicate TradesAt(ins: Instrument, unix: int) {
    var weekday := (unix / 86400 + 4) % 7;
    ins.allWeek || (weekday != 6 && weekday != 0)
  }

  /** Counted from Monday 00:00 UTC, trading lasts five days of seven. */
  lemma WeekdaysOnly(ins: Instrument, unix: int)
    ensures TradesAt(ins, unix) <==> ins.allWeek || (unix + 3 * 86400) % 604800 < 5 * 86400
  {
    var day := unix / 86400;
    var rest := unix - day * 86400;
    assert 0 <= rest < 86400;
    var week := (day + 3) / 7;
    assert unix + 3 * 86400 == week * 604800 + ((day + 3) % 7) * 86400 + rest;
    WeekRest(unix + 3 * 86400, week, (day + 3) % 7 * 86400 + rest);
  }

  lemma WeekRest(x: int, week: int, rest: int)
    requires x == week * 604800 + rest && 0 <= rest < 604800
    ensures x % 604800 == rest
  {
  }

  function Quote(m: Feed, symbol: string): (q: Option<Tick>)
    ensures q.Some? ==> symbol in m.listed && q.value.bid > 0.0 && q.value.ask > 0.0
  {
    if symbol in m.listed && symbol in m.ticks && m.ticks[symbol].bid > 0.0 && m.ticks[symbol].ask > 0.0
    then Some(m.ticks[symbol]) else None
  }

  function Mid(m: Feed, symbol: string): (mid: Option<real>)
    ensures mid.Some? ==> mid.value > 0.0
  {
    match Quote(m, symbol)
    case Some(t) => Some((t.bid + t.ask) / 2.0)
    case None => None
  }

  /** Converts an amount through the listed USD pairs; an unlisted currency
      passes through. */
  function ToUsd(m: Feed, ccy: string, amount: real): real {
    if ccy == "USD" || amount == 0.0 then amount
    else
      match Mid(m, "USD" + ccy)
      case Some(rate) => amount / rate
      case None =>
        match Mid(m, ccy + "USD")
        case Some(rate) => amount * rate
        case None => amount
  }

  /** The factor by which the current quotes convert a currency to USD. */
  ghost function UsdRate(m: Feed, ccy: string): (rate: real)
    ensures rate > 0.0
  {
    if ccy == "USD" then 1.0
    else
      match Mid(m, "USD" + ccy)
      case Some(mid) => 1.0 / mid
      case None =>
        match Mid(m, ccy + "USD")
        case Some(mid) => mid
        case None => 1.0
  }

  /** At fixed quotes the conversion is linear in the amount. */
  lemma ToUsdLinear(m: Feed, ccy: string, amount: real)
    ensures ToUsd(m, ccy, amount) == amount * UsdRate(m, ccy)
  {
    match Mid(m, "USD" + ccy)
    case Some(mid) => assert amount / mid == amount * (1.0 / mid);
    case None =>
  }

  /** USD value of an amount of the instrument's base asset at a price. */
  function BaseUsd(m: Feed, ins: Instrument, baseAmount: real, price: real): real {
    if ins.baseCcy == "USD" then baseAmount
    else if ins.profitCcy == "USD" then baseAmount * price
    else ToUsd(m, ins.baseCcy, baseAmount)
  }

  function BaseAmount(ins: Instrument, units: int): real {
    Lots(units) * Contract(ins)
  }

  function NotionalUsd(m: Feed, ins: Instrument, units: int, price: real): real {
    BaseUsd(m, ins, BaseAmount(ins, units), price)
  }

  function EffectiveLeverage(leverage: int): (lev: int)
    ensures lev > 0
  {
    if leverage <= 0 then DEFAULT_LEVERAGE else leverage
  }

  /** Margin in cents for a volume at a price. */
  function MarginFor(m: Feed, leverage: int, ins: Instrument, units: int, price: real): int {
    Round(NotionalUsd(m, ins, units, price) / EffectiveLeverage(leverage) as real * 100.0)
  }

  lemma Scaled(x: real, y: real, k: real)
    requires x <= y && k > 0.0
    ensures x * k <= y * k
  {
    assert (y - x) * k >= 0.0;
  }

  lemma ToUsdGrows(m: Feed, ccy: string, x: real, y: real)
    requires x <= y
    ensures ToUsd(m, ccy, x) <= ToUsd(m, ccy, y)
  {
    hide ToUsd, UsdRate;
    ToUsdLinear(m, ccy, x);
    ToUsdLinear(m, ccy, y);
    Scaled(x, y, UsdRate(m, ccy));
  }

  lemma BaseUsdGrows(m: Feed, ins: Instrument, x: real, y: real, price: real)
    requires x <= y && price > 0.0
    ensures BaseUsd(m, ins, x, price) <= BaseUsd(m, ins, y, price)
  {
    ToUsdGrows(m, ins.baseCcy, x, y);
    Scaled(x, y, price);
  }

  lemma BaseAmountGrows(ins: Instrument, less: int, units: int)
    requires less <= units
    ensures BaseAmount(ins, less) <= BaseAmount(ins, units)
  {
    Scaled(Lots(less), Lots(units), Contract(ins));
  }

  lemma NotionalIs(m: Feed, ins: Instrument, units: int, price: real)
    ensures NotionalUsd(m, ins, units, price) == BaseUsd(m, ins, BaseAmount(ins, units), price)
  {
  }

  lemma NotionalGrows(m: Feed, ins: Instrument, less: int, units: int, price: real)
    requires less <= units && price > 0.0
    ensures NotionalUsd(m, ins, less, price) <= NotionalUsd(m, ins, units, price)
  {
    hide *;
    NotionalIs(m, ins, less, price);
    NotionalIs(m, ins, units, price);
    BaseAmountGrows(ins, less, units);
    BaseUsdGrows(m, ins, BaseAmount(ins, less), BaseAmount(ins, units), price);
  }

  /** More volume never needs less margin, and no volume needs none. */
  lemma MarginGrows(m: Feed, leverage: int, ins: Instrument, less: int, units: int, price: real)
    requires less <= units && price > 0.0
    ensures MarginFor(m, leverage, ins, less, price) <= MarginFor(m, leverage, ins, units, price)
  {
    NotionalGrows(m, ins, less, units, price);
    MarginOfNotional(NotionalUsd(m, ins, less, price), NotionalUsd(m, ins, units, price), EffectiveLeverage(leverage) as real);
  }

  lemma MarginOfNotional(x: real, y: real, lev: real)
    requires x <= y && lev > 0.0
    ensures Round(x / lev * 100.0) <= Round(y / lev * 100.0)
  {
    assert x / lev <= y / lev;
    RoundMonotone(x / lev * 100.0, y / lev * 100.0);
  }

  lemma MarginNonNegative(m: Feed, leverage: int, ins: Instrument, units: int, price: real)
    requires units >= 0 && price > 0.0
    ensures MarginFor(m, leverage, ins, units, price) >= 0
  {
    MarginGrows(m, leverage, ins, 0, units, price);
    ToUsdLinear(m, ins.baseCcy, 0.0);
    RoundWhole(0);
  }

  /** Price difference in the position's favour at the side it would close. */
  function Move(action: int, priceOpen: real, t: Tick): real {
    if action == BUY then t.bid - priceOpen else priceOpen - t.ask
  }

  /** A price move over a volume, in the instrument's profit currency. */
  function MoveValue(move: real, volume: int, contract: real): real {
    move * Lots(volume) * contract
  }

  /** Profit in cents, before rounding, of a volume over a price move. */
  function RawProfit(m: Feed, ins: Instrument, move: real, volume: int): real {
    ToUsd(m, ins.profitCcy, MoveValue(move, volume, Contract(ins))) * 100.0
  }

  /** Floating profit in cents of a volume opened at a price. */
  function FloatingProfit(m: Feed, symbol: string, action: int, priceOpen: real, volume: int, t: Tick): int {
    if symbol !in m.listed then 0
    else Round(RawProfit(m, m.listed[symbol], Move(action, priceOpen, t), volume))
  }

  /** For an instrument quoted in dollars, what a long position gains over a move
      is the change of its notional value. */
  lemma ProfitIsRevaluation(m: Feed, ins: Instrument, units: int, open: real, close: real)
    requires ins.profitCcy == "USD" && ins.baseCcy != "USD"
    ensures RawProfit(m, ins, close - open, units) == (NotionalUsd(m, ins, units, close) - NotionalUsd(m, ins, units, open)) * 100.0
  {
    var lots, c := Lots(units), Contract(ins);
    assert (close - open) * lots * c == lots * c * close - lots * c * open;
  }

  /** The figures of one lot of euros: at 1.1 and 1:100 it takes a margin of 1100
      dollars, a pip is worth ten, and on a short position as much is lost. */
  lemma EuroLot(m: Feed)
    requires "EURUSD" in m.listed && m.listed["EURUSD"] == Instrument("EUR", "USD", 5, 0.0, false)
    ensures MarginFor(m, 100, m.listed["EURUSD"], 10000, 1.1) == 110000
    ensures MarginFor(m, 0, m.listed["EURUSD"], 10000, 1.1) == 110000
    ensures FloatingProfit(m, "EURUSD", BUY, 1.1, 10000, Tick(1.1001, 1.1003)) == 1000
    ensures FloatingProfit(m, "EURUSD", SELL, 1.1, 10000, Tick(1.0999, 1.1001)) == -1000
  {
    RoundWhole(110000);
    RoundWhole(1000);
    RoundWhole(-1000);
    assert Lots(10000) == 1.0;
  }

  /** And of one lot of dollars against yen, whose profit is converted back at the
      middle of the quote. */
  lemma YenLot(m: Feed)
    requires "USDJPY" in m.listed && m.listed["USDJPY"] == Instrument("USD", "JPY", 3, 0.0, false)
    requires "USDJPY" in m.ticks && m.ticks["USDJPY"] == Tick(149.99, 150.01)
    ensures MarginFor(m, 100, m.listed["USDJPY"], 10000, 150.0) == 100000
    ensures FloatingProfit(m, "USDJPY", BUY, 149.9, 10000, m.ticks["USDJPY"]) == 6000
  {
    assert Lots(10000) == 1.0;
    assert "USD" + "JPY" == "USDJPY";
    assert Mid(m, "USDJPY") == Some(150.0);
    RoundWhole(100000);
    RoundWhole(6000);
    assert ToUsd(m, "JPY", 9000.0) == 60.0;
  }

  /** And of one lot of euros against pounds: the margin is the euros' price in
      dollars, the profit converted from pounds. */
  lemma CrossLot(m: Feed)
    requires m.listed == map["EURGBP" := Instrument("EUR", "GBP", 5, 0.0, false),
                             "EURUSD" := Instrument("EUR", "USD", 5, 0.0, false),
                             "GBPUSD" := Instrument("GBP", "USD", 5, 0.0, false)]
    requires m.ticks == map["EURUSD" := Tick(1.09, 1.11), "GBPUSD" := Tick(1.24, 1.26)]
    ensures MarginFor(m, 100, m.listed["EURGBP"], 10000, 0.88) == 110000
    ensures FloatingProfit(m, "EURGBP", SELL, 0.88, 10000, Tick(0.8797, 0.8799)) == 1250
  {
    assert Lots(10000) == 1.0;
    Pairs();
    hide Quote;
    assert Quote(m, "EURUSD") == Some(Tick(1.09, 1.11)) && Quote(m, "GBPUSD") == Some(Tick(1.24, 1.26)) by { Quotes(m); }
    assert Quote(m, "USDEUR") == None && Quote(m, "USDGBP") == None by { Quotes(m); }
    assert Mid(m, "EURUSD") == Some(1.1) && Mid(m, "GBPUSD") == Some(1.25);
    RoundWhole(110000);
    RoundWhole(1250);
    assert ToUsd(m, "EUR", 100000.0) == 110000.0 && ToUsd(m, "GBP", 10.0) == 12.5;
  }

  lemma Pairs()
    ensures "USD" + "EUR" == "USDEUR" && "EUR" + "USD" == "EURUSD" && "USD" + "GBP" == "USDGBP" && "GBP" + "USD" == "GBPUSD"
    ensures "USDEUR"[0] == "USDGBP"[0] == 'U' && "EURGBP"[0] == "EURUSD"[0] == 'E' && "GBPUSD"[0] == 'G'
  {
  }

  lemma Quotes(m: Feed)
    requires m.listed.Keys == {"EURGBP", "EURUSD", "GBPUSD"}
    requires m.ticks == map["EURUSD" := Tick(1.09, 1.11), "GBPUSD" := Tick(1.24, 1.26)]
    ensures Quote(m, "EURUSD") == Some(Tick(1.09, 1.11)) && Quote(m, "GBPUSD") == Some(Tick(1.24, 1.26))
    ensures Quote(m, "USDEUR") == None && Quote(m, "USDGBP") == None
  {
    Pairs();
    assert "USDEUR" !in m.listed.Keys && "USDGBP" !in m.listed.Keys;
  }

  lemma RawProfitAdditive(m: Feed, ins: Instrument, move: real, v: int, w: int)
    ensures RawProfit(m, ins, move, v + w) == RawProfit(m, ins, move, v) + RawProfit(m, ins, move, w)
  {
    var c := Contract(ins);
    var x, y, z := MoveValue(move, v, c), MoveValue(move, w, c), MoveValue(move, v + w, c);
    assert z == x + y by { MoveValueAdditive(move, v, w, c); }
    ToUsdAdditive(m, ins.profitCcy, x, y);
  }

  lemma MoveValueAdditive(move: real, v: int, w: int, c: real)
    ensures MoveValue(move, v + w, c) == MoveValue(move, v, c) + MoveValue(move, w, c)
  {
    Distribute(move, Lots(v), Lots(w), c);
    assert Lots(v + w) == Lots(v) + Lots(w);
  }

  lemma ToUsdAdditive(m: Feed, ccy: string, x: real, y: real)
    ensures ToUsd(m, ccy, x + y) == ToUsd(m, ccy, x) + ToUsd(m, ccy, y)
  {
    ToUsdLinear(m, ccy, x);
    ToUsdLinear(m, ccy, y);
    ToUsdLinear(m, ccy, x + y);
    var r := UsdRate(m, ccy);
    assert (x + y) * r == x * r + y * r;
  }

  lemma Distribute(k: real, a: real, b: real, c: real)
    ensures k * (a + b) * c == k * a * c + k * b * c
  {
    assert k * (a + b) == k * a + k * b;
    assert (k * a + k * b) * c == k * a * c + k * b * c;
  }

  /** Valuing a volume in two parts moves the total by at most one cent. */
  lemma FloatingProfitSplit(m: Feed, symbol: string, action: int, priceOpen: real, v: int, w: int, t: Tick)
    ensures -1 <= FloatingProfit(m, symbol, action, priceOpen, v, t)
               + FloatingProfit(m, symbol, action, priceOpen, w, t)
               - FloatingProfit(m, symbol, action, priceOpen, v + w, t) <= 1
  {
    if symbol in m.listed {
      var ins, move := m.listed[symbol], Move(action, priceOpen, t);
      RawProfitAdditive(m, ins, move, v, w);
      RoundSplit(RawProfit(m, ins, move, v), RawProfit(m, ins, move, w));
    }
  }
}
