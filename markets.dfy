/** The market mock: the fixed list of markets, the projection of a list into
    at most five display rows (renderMarkets) and the in-place shuffle. */
module Markets {

  /** One mock binary market: category tag, question text and the probability of "Yes". */
  datatype Market = Market(tag: string, q: string, p: real)

  /** One rendered market card. `yes` is both the width of the bar (in percent)
      and the "Yes" figure of the odds label; `no` is the "No" figure. */
  datatype Row = Row(question: string, tag: string, yes: int, no: int)

  /** renderMarkets shows at most this many markets. */
  const MaxShown := 5

  /** The probability is clamped to [MinP, MaxP] before it is turned into a percentage. */
  const MinP := 0.01
  const MaxP := 0.99

  /** Math.max(a, Math.min(b, n)). */
  function Clamp(n: real, a: real, b: real): (r: real)
    ensures a <= b ==> a <= r <= b
    ensures a <= n <= b ==> r == n
    ensures a <= b && n < a ==> r == a
    ensures a <= b && b < n ==> r == b
    ensures b < a ==> r == a
  {
    var m := if b < n then b else n;
    if a < m then m else a
  }

  /** Math.round on a non-NaN number: the nearest integer, halves rounded up. */
  function Round(x: real): (r: int)
    ensures x - 0.5 < r as real <= x + 0.5
  {
    (x + 0.5).Floor
  }

  /** The whole percentage shown for a market with probability p. */
  function Percent(p: real): (pct: int)
    ensures 1 <= pct <= 99
    ensures MinP <= p <= MaxP ==> p * 100.0 - 0.5 < pct as real <= p * 100.0 + 0.5
    ensures p <= MinP ==> pct == 1
    ensures MaxP <= p ==> pct == 99
  {
    Round(Clamp(p, MinP, MaxP) * 100.0)
  }

  /** The card of one market: its question and tag, the "Yes" figure (also
      the bar width) and the "No" figure completing it to 100. */
  function ToRow(m: Market): (r: Row)
    ensures r.question == m.q && r.tag == m.tag
    ensures 1 <= r.yes <= 99 && 1 <= r.no <= 99
    ensures r.yes + r.no == 100
    ensures r.yes == Percent(m.p) && r.no == 100 - Percent(m.p)
  {
    var pct := Percent(m.p);
    Row(m.q, m.tag, pct, 100 - pct)
  }

  /** The rows of a list of markets, one per market, in order. */
  function Project(ms: seq<Market>): (rows: seq<Row>)
    ensures |rows| == |ms|
    ensures forall i :: 0 <= i < |ms| ==> rows[i] == ToRow(ms[i])
  {
    if ms == [] then [] else [ToRow(ms[0])] + Project(ms[1..])
  }

  function ShownCount(n: nat): (k: nat)
  {
    if n < MaxShown then n else MaxShown
  }

  /** What renderMarkets(list) leaves in the container. */
  function Displayed(list: seq<Market>): (rows: seq<Row>)
    ensures |rows| <= MaxShown
    ensures |rows| == ShownCount(|list|)
    ensures forall i :: 0 <= i < |rows| ==> rows[i] == ToRow(list[i])
  {
    Project(list[..ShownCount(|list|)])
  }

  /** Every displayed row carries its market's question and tag, its
      market's percentage as the "Yes" figure (between 1 and 99), and a "No"
      figure completing it to 100. */
  lemma DisplayedOdds(list: seq<Market>, i: nat)
    requires i < |Displayed(list)|
    ensures Displayed(list)[i].question == list[i].q
    ensures Displayed(list)[i].tag == list[i].tag
    ensures 1 <= Displayed(list)[i].yes <= 99
    ensures 1 <= Displayed(list)[i].no <= 99
    ensures Displayed(list)[i].yes + Displayed(list)[i].no == 100
    ensures Displayed(list)[i].yes == Percent(list[i].p)
  {
  }

  /** The rows shown depend only on the markets that slice(0, MaxShown) keeps. */
  lemma DisplayedPrefix(list: seq<Market>, other: seq<Market>)
    requires list[..ShownCount(|list|)] == other[..ShownCount(|other|)]
    ensures Displayed(list) == Displayed(other)
  {
  }

  /** The six markets of MARKET_DATA, in source order. */
  function MarketData(): (data: seq<Market>)
    ensures |data| == 6
  {
    [ Market("Economia", "A infla\U{00E7}\U{00E3}o anual ficar\U{00E1} acima de 3,0%?", 0.62),
      Market("Esportes", "O Time A vence o pr\U{00F3}ximo jogo?", 0.54),
      Market("Clima", "Vai chover amanh\U{00E3} na cidade X?", 0.41),
      Market("Pol\U{00ED}tica", "Um projeto ser\U{00E1} aprovado at\U{00E9} o fim do m\U{00EA}s?", 0.33),
      Market("Tech", "Uma big tech lan\U{00E7}ar\U{00E1} um produto novo este trimestre?", 0.48),
      Market("Economia", "A taxa de juros cair\U{00E1} na pr\U{00F3}xima reuni\U{00E3}o?", 0.57) ]
  }

  /** On page load the first five markets are shown with these "Yes" figures. */
  lemma InitialOdds()
    ensures |Displayed(MarketData())| == 5
    ensures Displayed(MarketData())[0].yes == 62 && Displayed(MarketData())[0].no == 38
    ensures Displayed(MarketData())[1].yes == 54 && Displayed(MarketData())[1].no == 46
    ensures Displayed(MarketData())[2].yes == 41 && Displayed(MarketData())[2].no == 59
    ensures Displayed(MarketData())[3].yes == 33 && Displayed(MarketData())[3].no == 67
    ensures Displayed(MarketData())[4].yes == 48 && Displayed(MarketData())[4].no == 52
  {
  }

  /** The #markets container: the rows currently rendered in it. */
  class MarketBoard {
    var rows: seq<Row>

    constructor ()
      ensures rows == []
    {
      rows := [];
    }

    /** renderMarkets(list): empty the container, then append one card per
        market of the first MaxShown. The new rows do not depend on the old
        ones, so rendering again never accumulates cards. */
    method Render(list: seq<Market>)
      modifies this
      ensures rows == Displayed(list)
    {
      rows := [];
      var shown := list[..ShownCount(|list|)];
      for i := 0 to |shown|
        invariant |rows| == i
        invariant forall k :: 0 <= k < i ==> rows[k] == ToRow(shown[k])
      {
        rows := rows + [ToRow(shown[i])];
      }
    }
  }

  /** shuffle(arr): arr.sort(() => Math.random() - 0.5). The engine's sort is
      modelled as an insertion sort; the k-th comparison answers
      random(k) - 0.5, where random(k) is the k-th draw of Math.random, and a
      positive answer moves the later element in front of the earlier one.
      The array is reordered in place and returned. */
  method Shuffle(a: array<Market>, random: nat -> real) returns (r: array<Market>)
    modifies a
    ensures r == a
    ensures multiset(a[..]) == multiset(old(a[..]))
  {
    var draws := 0;
    var i := 1;
    while i < a.Length
      invariant multiset(a[..]) == multiset(old(a[..]))
    {
      var j := i;
      while 0 < j
        invariant 0 <= j <= i < a.Length
        invariant multiset(a[..]) == multiset(old(a[..]))
      {
        var answer := random(draws) - 0.5;
        draws := draws + 1;
        if answer <= 0.0 {
          break;
        }
        ghost var before := a[..];
        a[j - 1], a[j] := a[j], a[j - 1];
        assert a[..] == before[j - 1 := before[j]][j := before[j - 1]];
        j := j - 1;
      }
      i := i + 1;
    }
    r := a;
  }
}
