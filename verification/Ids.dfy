/** What identifies an instrument, and the key its maps use (crates/domain/src/ids.rs). */
module Ids {
  datatype ExchangeId = Binance | Bybit

  datatype MarketKind = Spot | LinearPerp | InversePerp

  datatype Symbol = Symbol(exchange: ExchangeId, market: MarketKind, raw: string)

  function ExchangeName(e: ExchangeId): string {
    match e
    case Binance => "binance"
    case Bybit => "bybit"
  }

  function MarketName(m: MarketKind): string {
    match m
    case Spot => "spot"
    case LinearPerp => "linear_perp"
    case InversePerp => "inverse_perp"
  }

  function Key(s: Symbol): string {
    ExchangeName(s.exchange) + ":" + MarketName(s.market) + ":" + s.raw
  }

  // Two symbols share a map key only if they are the same symbol: this is what lets every other
  // module index its maps by `Symbol` itself.
  lemma KeyIsInjective(a: Symbol, b: Symbol)
    requires Key(a) == Key(b)
    ensures a == b
  {
    NoColonInNames(a);
    NoColonInNames(b);
    ThreeParts(ExchangeName(a.exchange), MarketName(a.market), a.raw,
               ExchangeName(b.exchange), MarketName(b.market), b.raw);
    ExchangesDiffer(a.exchange, b.exchange);
    MarketsDiffer(a.market, b.market);
  }

  lemma NoColonInNames(s: Symbol)
    ensures ':' !in ExchangeName(s.exchange) && ':' !in MarketName(s.market)
  {
  }

  lemma ExchangesDiffer(a: ExchangeId, b: ExchangeId)
    requires ExchangeName(a) == ExchangeName(b)
    ensures a == b
  {
    assert ExchangeName(Binance)[1] == 'i' && ExchangeName(Bybit)[1] == 'y';
  }

  lemma MarketsDiffer(a: MarketKind, b: MarketKind)
    requires MarketName(a) == MarketName(b)
    ensures a == b
  {
    assert MarketName(Spot)[0] == 's' && MarketName(LinearPerp)[0] == 'l' && MarketName(InversePerp)[0] == 'i';
  }

  lemma ThreeParts(x: string, y: string, z: string, x': string, y': string, z': string)
    requires ':' !in x && ':' !in y && ':' !in x' && ':' !in y'
    requires x + ":" + y + ":" + z == x' + ":" + y' + ":" + z'
    ensures x == x' && y == y' && z == z'
  {
    assert x + ":" + y + ":" + z == x + ":" + (y + ":" + z);
    assert x' + ":" + y' + ":" + z' == x' + ":" + (y' + ":" + z');
    SplitAtColon(x, y + ":" + z, x', y' + ":" + z');
    SplitAtColon(y, z, y', z');
  }

  lemma SplitAtColon(head: string, tail: string, head': string, tail': string)
    requires ':' !in head && ':' !in head'
    requires head + ":" + tail == head' + ":" + tail'
    ensures head == head' && tail == tail'
  {
    var whole := head + ":" + tail;
    assert whole[|head|] == ':' && whole[|head'|] == ':';
    assert forall i :: 0 <= i < |head| ==> whole[i] == head[i];
    assert forall i :: 0 <= i < |head'| ==> whole[i] == head'[i];
    assert head == whole[..|head|] && tail == whole[|head| + 1..];
  }
}
