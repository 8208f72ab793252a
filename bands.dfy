/**
  Band grouping of the landscape: rankCards numbers the ordered scenarios,
  buildGroupedBands splits ranked cards into the highlighted ones ("Im Fokus") and
  the rest ("Weitere Szenarien"), and buildFrequencyBands cuts the frequency-ordered
  cards into a centre (the first 20%), a middle field (the next 35%) and an outer
  zone, optionally splitting each zone again by the highlight.
  Band titles are kept as data: which zone, which side, and the count shown.
 */
module Bands {
  import opened Base
  import opened Scenarios
  import opened Views

  /** A scenario with its 1-based position in the ordering. */
  datatype RankedCard = RankedCard(scenario: Scenario, rank: nat)

  /** The three frequency zones, in display order. */
  datatype Zone = Center | Middle | Outer

  /** The two sides of a grouped band. */
  datatype Side = InFocus | Others

  /** A zone title with the number it shows, e.g. "Zentrum: häufige Sitzbilder (4)". */
  datatype ZoneLabel = ZoneLabel(zone: Zone, size: int)

  /** A side title with the number it shows, e.g. "Im Fokus (3)". */
  datatype SideLabel = SideLabel(side: Side, size: nat)

  /** A band title: a zone part, a side part, or both ("<zone> · <side>"). */
  datatype BandTitle = BandTitle(zone: Option<ZoneLabel>, side: Option<SideLabel>)

  datatype Band = Band(title: BandTitle, cards: seq<RankedCard>)

  /** rankCards: each scenario paired with its position, counting from 1. */
  function RankCards(ordered: seq<Scenario>): (cards: seq<RankedCard>)
    ensures |cards| == |ordered|
    ensures forall i :: 0 <= i < |ordered| ==> cards[i].scenario == ordered[i] && cards[i].rank == i + 1
  {
    seq(|ordered|, i requires 0 <= i < |ordered| => RankedCard(ordered[i], i + 1))
  }

  /** The cards of a list of bands, one band after the other. */
  function AllCards(bands: seq<Band>): seq<RankedCard>
  {
    if bands == [] then [] else bands[0].cards + AllCards(bands[1..])
  }

  lemma {:induction false} AllCardsAppend(a: seq<Band>, b: seq<Band>)
    ensures AllCards(a + b) == AllCards(a) + AllCards(b)
  {
    if a != [] {
      assert (a + b)[1..] == a[1..] + b;
      AllCardsAppend(a[1..], b);
    } else {
      assert a + b == b;
    }
  }

  // ---- buildGroupedBands

  function InFocusCard(h: Highlight): RankedCard -> bool
  {
    (c: RankedCard) => Highlighted(h, c.scenario)
  }

  function OtherCard(h: Highlight): RankedCard -> bool
  {
    (c: RankedCard) => !Highlighted(h, c.scenario)
  }

  /** buildGroupedBands for the view's highlight, below an optional zone title. */
  function GroupedBands(cards: seq<RankedCard>, h: Highlight, prefix: Option<ZoneLabel>): seq<Band>
  {
    var focus := Filter(cards, InFocusCard(h));
    var remaining := Filter(cards, OtherCard(h));
    var focusBand := Band(BandTitle(prefix, Some(SideLabel(InFocus, |focus|))), focus);
    var otherBand := Band(BandTitle(prefix, Some(SideLabel(Others, |remaining|))), remaining);
    if |focus| == 0 then [otherBand]
    else if |remaining| == 0 then [focusBand]
    else [focusBand, otherBand]
  }

  /**
    The grouped bands hold exactly the input cards and no more: the focus cards and
    the other cards together are the input cards.
   */
  lemma {:induction false} GroupedBandsKeepCards(cards: seq<RankedCard>, h: Highlight, prefix: Option<ZoneLabel>, bands: seq<Band>)
    requires bands == GroupedBands(cards, h, prefix)
    ensures multiset(AllCards(bands)) == multiset(cards)
    ensures 1 <= |bands| <= 2
  {
    var focus := Filter(cards, InFocusCard(h));
    var remaining := Filter(cards, OtherCard(h));
    FilterSplit(cards, InFocusCard(h), OtherCard(h));
    if |focus| == 0 {
      AllCardsOfOne(bands[0]);
    } else if |remaining| == 0 {
      AllCardsOfOne(bands[0]);
    } else {
      AllCardsOfTwo(bands[0], bands[1]);
      assert bands == [bands[0], bands[1]];
    }
  }

  lemma {:induction false} AllCardsOfOne(b: Band)
    ensures AllCards([b]) == b.cards
  {
    assert [b][1..] == [];
  }

  lemma {:induction false} AllCardsOfTwo(a: Band, b: Band)
    ensures AllCards([a, b]) == a.cards + b.cards
  {
    assert [a, b][1..] == [b];
    AllCardsOfOne(b);
  }

  /**
    The shape of the grouped bands: with nothing highlighted a single "Weitere
    Szenarien" band holds all cards (with no cards it is empty and shows 0); with
    everything highlighted a single "Im Fokus" band holds all cards; otherwise the
    focus band, holding the highlighted cards in input order, comes before the other
    band, holding the rest in input order. Every title shows its band's count.
   */
  lemma {:induction false} GroupedBandsShape(cards: seq<RankedCard>, h: Highlight, prefix: Option<ZoneLabel>, bands: seq<Band>)
    requires bands == GroupedBands(cards, h, prefix)
    ensures CountWhere(cards, InFocusCard(h)) == 0 ==>
      bands == [Band(BandTitle(prefix, Some(SideLabel(Others, |cards|))), cards)]
    ensures CountWhere(cards, OtherCard(h)) == 0 && cards != [] ==>
      bands == [Band(BandTitle(prefix, Some(SideLabel(InFocus, |cards|))), cards)]
    ensures CountWhere(cards, InFocusCard(h)) > 0 && CountWhere(cards, OtherCard(h)) > 0 ==>
      var focus := Filter(cards, InFocusCard(h));
      var remaining := Filter(cards, OtherCard(h));
      bands == [Band(BandTitle(prefix, Some(SideLabel(InFocus, |focus|))), focus),
                Band(BandTitle(prefix, Some(SideLabel(Others, |remaining|))), remaining)]
  {
    CountWhereComplement(cards, InFocusCard(h), OtherCard(h));
    if CountWhere(cards, InFocusCard(h)) == 0 {
      CountWhereNone(cards, InFocusCard(h));
      FilterAll(cards, OtherCard(h));
    } else if CountWhere(cards, OtherCard(h)) == 0 {
      CountWhereNone(cards, OtherCard(h));
      FilterAll(cards, InFocusCard(h));
    }
  }

  /** Unless the input is empty, no grouped band is empty. */
  lemma {:induction false} GroupedBandsNonEmpty(cards: seq<RankedCard>, h: Highlight, prefix: Option<ZoneLabel>, bands: seq<Band>)
    requires bands == GroupedBands(cards, h, prefix)
    ensures cards != [] ==> forall b :: b in bands ==> b.cards != []
  {
    CountWhereComplement(cards, InFocusCard(h), OtherCard(h));
  }

  /** The focus cards of the grouped bands are all highlighted and the other cards are not. */
  lemma {:induction false} GroupedBandsSides(cards: seq<RankedCard>, h: Highlight, prefix: Option<ZoneLabel>)
    ensures forall b, c :: b in GroupedBands(cards, h, prefix) && c in b.cards ==>
      (b.title.side == Some(SideLabel(InFocus, |b.cards|)) <==> Highlighted(h, c.scenario))
  {
    FilterKeeps(cards, InFocusCard(h));
    FilterKeeps(cards, OtherCard(h));
  }

  // ---- buildFrequencyBands

  /** Math.ceil on the real numbers. */
  function Ceil(x: real): (n: int)
    ensures x <= n as real < x + 1.0
  {
    -((-x).Floor)
  }

  function Max(a: int, b: int): int { if a >= b then a else b }

  function Min(a: int, b: int): int { if a <= b then a else b }

  /** Where the centre zone ends: max(1, ⌈20% of n⌉), capped at n. */
  function CenterEnd(total: nat): int
  {
    Min(Max(1, Ceil(total as real * 0.2)), total)
  }

  /** Where the middle zone ends: up to max(1, ⌈35% of n⌉) cards after the centre, capped at n. */
  function MiddleEnd(total: nat): int
  {
    Min(CenterEnd(total) + Max(1, Ceil(total as real * 0.35)), total)
  }

  /**
    The zone boundaries: the centre holds at least one card and at least a fifth of
    the cards, and fewer than a fifth plus one; the middle zone holds at least one
    card whenever cards remain after the centre.
   */
  lemma {:induction false} ZoneBounds(total: nat)
    ensures 0 <= CenterEnd(total) <= MiddleEnd(total) <= total
    ensures total > 0 ==> 1 <= CenterEnd(total) && 5 * CenterEnd(total) >= total
    ensures total >= 5 ==> 5 * CenterEnd(total) < total + 5
    ensures CenterEnd(total) < total ==> MiddleEnd(total) > CenterEnd(total)
    ensures MiddleEnd(total) < total ==> 20 * (MiddleEnd(total) - CenterEnd(total)) >= 7 * total
  {
  }

  /** The zones before empty ones are dropped. */
  function AllZones(cards: seq<RankedCard>): (zones: seq<Band>)
  {
    var total := |cards|;
    var centerEnd := CenterEnd(total);
    var midEnd := MiddleEnd(total);
    ZoneBounds(total);
    [
      Band(BandTitle(Some(ZoneLabel(Center, centerEnd)), None), cards[..centerEnd]),
      Band(BandTitle(Some(ZoneLabel(Middle, Max(0, midEnd - centerEnd))), None), cards[centerEnd..midEnd]),
      Band(BandTitle(Some(ZoneLabel(Outer, Max(0, total - midEnd))), None), cards[midEnd..])
    ]
  }

  /** The bands among `bands` with at least one card, in order. */
  function NonEmpty(bands: seq<Band>): (kept: seq<Band>)
    ensures forall b :: b in kept <==> b in bands && b.cards != []
    ensures AllCards(kept) == AllCards(bands)
  {
    if bands == [] then []
    else if bands[0].cards == [] then NonEmpty(bands[1..])
    else [bands[0]] + NonEmpty(bands[1..])
  }

  /** The frequency zones of buildFrequencyBands in "standard" grouping. */
  function FrequencyZones(cards: seq<RankedCard>): seq<Band>
  {
    NonEmpty(AllZones(cards))
  }

  /** Each zone split again by buildGroupedBands, below the zone's title. */
  function SplitZones(zones: seq<Band>, h: Highlight): seq<Band>
  {
    if zones == [] then []
    else GroupedBands(zones[0].cards, h, zones[0].title.zone) + SplitZones(zones[1..], h)
  }

  /** buildFrequencyBands; `standard` says whether the grouping display is "standard". */
  function FrequencyBands(cards: seq<RankedCard>, h: Highlight, standard: bool): seq<Band>
  {
    var zones := FrequencyZones(cards);
    if standard then zones else SplitZones(zones, h)
  }

  /** The three zones, before empty ones are dropped: the cards in order, each titled with its size. */
  lemma {:induction false} AllZonesShape(cards: seq<RankedCard>)
    ensures var all := AllZones(cards);
      && |all| == 3
      && AllCards(all) == cards
      && (forall b :: b in all ==> b.title.zone.Some? && b.title.zone.value.size == |b.cards|)
      && all[0] == Band(BandTitle(Some(ZoneLabel(Center, CenterEnd(|cards|))), None), cards[..CenterEnd(|cards|)])
  {
    AllZonesCards(cards);
    AllZonesTitled(cards);
  }

  /** Each of the three zones is titled with its number of cards. */
  lemma {:induction false} AllZonesTitled(cards: seq<RankedCard>)
    ensures forall b :: b in AllZones(cards) ==> b.title.zone.Some? && b.title.zone.value.size == |b.cards|
  {
    var total := |cards|;
    var centerEnd := CenterEnd(total);
    var midEnd := MiddleEnd(total);
    ZoneBounds(total);
    var all := AllZones(cards);
    assert |all[0].cards| == centerEnd == all[0].title.zone.value.size;
    assert |all[1].cards| == midEnd - centerEnd == all[1].title.zone.value.size;
    assert |all[2].cards| == total - midEnd == all[2].title.zone.value.size;
  }

  /** Read one after the other, the three zones are the cards. */
  lemma {:induction false} AllZonesCards(cards: seq<RankedCard>)
    ensures AllCards(AllZones(cards)) == cards
  {
    var centerEnd := CenterEnd(|cards|);
    var midEnd := MiddleEnd(|cards|);
    ZoneBounds(|cards|);
    var all := AllZones(cards);
    assert all == [all[0]] + [all[1], all[2]];
    AllCardsAppend([all[0]], [all[1], all[2]]);
    AllCardsOfOne(all[0]);
    AllCardsOfTwo(all[1], all[2]);
    assert cards == cards[..centerEnd] + (cards[centerEnd..midEnd] + cards[midEnd..]);
  }

  /**
    The frequency zones, read one after the other, are the input cards unchanged;
    no zone is empty; each zone's title shows its number of cards; the centre, when
    present, is the first zone and holds the first CenterEnd cards.
   */
  lemma {:induction false} FrequencyZonesSound(cards: seq<RankedCard>)
    ensures var zones := FrequencyZones(cards);
      && AllCards(zones) == cards
      && (forall z :: z in zones ==> z.cards != [] && z.title.zone.Some? && z.title.zone.value.size == |z.cards|)
      && (cards == [] <==> zones == [])
      && (cards != [] ==> zones[0].title.zone == Some(ZoneLabel(Center, CenterEnd(|cards|)))
                          && zones[0].cards == cards[..CenterEnd(|cards|)])
  {
    var all := AllZones(cards);
    AllZonesShape(cards);
    var zones := NonEmpty(all);
    if cards != [] {
      ZoneBounds(|cards|);
      assert all[0].cards != [];
      assert zones == [all[0]] + NonEmpty(all[1..]);
    }
  }

  /** Splitting zones by the highlight keeps every card and adds none. */
  lemma {:induction false} SplitZonesKeepsCards(zones: seq<Band>, h: Highlight)
    ensures multiset(AllCards(SplitZones(zones, h))) == multiset(AllCards(zones))
    ensures (forall z :: z in zones ==> z.cards != []) ==> forall b :: b in SplitZones(zones, h) ==> b.cards != []
  {
    if zones != [] {
      SplitZonesKeepsCards(zones[1..], h);
      var first := GroupedBands(zones[0].cards, h, zones[0].title.zone);
      GroupedBandsKeepCards(zones[0].cards, h, zones[0].title.zone, first);
      GroupedBandsNonEmpty(zones[0].cards, h, zones[0].title.zone, first);
      AllCardsAppend(first, SplitZones(zones[1..], h));
      if forall z :: z in zones ==> z.cards != [] {
        assert forall z :: z in zones[1..] ==> z in zones;
      }
    }
  }

  /**
    buildFrequencyBands holds exactly the input cards and no empty band; in
    "standard" grouping the bands are the zones in order and hold the cards unchanged.
   */
  lemma {:induction false} FrequencyBandsSound(cards: seq<RankedCard>, h: Highlight, standard: bool)
    ensures var bands := FrequencyBands(cards, h, standard);
      && multiset(AllCards(bands)) == multiset(cards)
      && (forall b :: b in bands ==> b.cards != [])
      && (standard ==> AllCards(bands) == cards)
  {
    FrequencyZonesSound(cards);
    SplitZonesKeepsCards(FrequencyZones(cards), h);
  }
}
