/**
 What the cheap checks are worth over a whole chain of heads: the money a shard reports
 is the balance of all its partial sums, block after block without a gap.
 */
module Kopfkette {
  import opened Typen
  import opened Bereich
  import opened Geld
  import BlockKlassen

  // ---- one head ----------------------------------------------------------------------------

  /** What each reason for a rejection says of a block, the one before it, its committee and the frame. */
  predicate Verletzt(w: Welt, b: BereichsBlock, vorher: Option<BereichsBlock>, ausschuss: seq<string>, r: Rahmen,
                     grund: Grund)
  {
    var t := b.teilsumme;
    match grund
    case ZuWenigeUnterschriften => !BestaetigtVon(w, b, ausschuss)
    case FalscherRahmen => b.rahmen.s != r.s || b.rahmen.geKumuliert != r.geKumuliert || b.rahmen.grenze != r.grenze
    case KetteGebrochen => vorher.Some? && !(b.nr == (vorher.wert.nr + 1) % ZWEI64 && b.vor == vorher.wert.nach)
    case FremdeQuittung => exists q :: q in b.ausgang && (q.vonBereich != b.bereich || q.betrag <= 0)
    case QuittungssummenFalsch =>
      t.ausgang != Wrap(Betraege(b.ausgang)) || t.eingang != Wrap(Betraege(b.eingaben.eingang))
    case GeldmengeFalsch =>
      b.geldmenge < 0 || b.geldmenge != Wrap((if vorher.Some? then vorher.wert.geldmenge else 0) + Beitrag(t))
    case MenschenFalsch => b.menschen != (if vorher.Some? then vorher.wert.menschen else 0) + t.neueMenschen
  }

  /** The order in which the reasons are looked for. */
  function Rang(grund: Grund): nat {
    match grund
    case ZuWenigeUnterschriften => 0
    case FalscherRahmen => 1
    case KetteGebrochen => 2
    case FremdeQuittung => 3
    case QuittungssummenFalsch => 4
    case GeldmengeFalsch => 5
    case MenschenFalsch => 6
  }

  lemma SollGleich(vorher: Int64, t: Teilsumme)
    ensures Soll(vorher, t) == Wrap(vorher + Beitrag(t))
  {
  }

  /** The first thing wrong is what a block is rejected for. */
  lemma ErsterGrund(w: Welt, b: BereichsBlock, vorher: Option<BereichsBlock>, ausschuss: seq<string>, r: Rahmen)
    ensures var p := BilligPruefen(w, b, vorher, ausschuss, r);
      && (p.Abgelehnt? ==> Verletzt(w, b, vorher, ausschuss, r, p.grund))
      && forall g :: Verletzt(w, b, vorher, ausschuss, r, g) ==> p.Abgelehnt? && Rang(p.grund) <= Rang(g)
  {
    hide BestaetigtVon, Wrap, Betraege, Beitrag, Soll;
    SollGleich(if vorher.Some? then vorher.wert.geldmenge else 0, b.teilsumme);
    forall g | Verletzt(w, b, vorher, ausschuss, r, g)
      ensures var p := BilligPruefen(w, b, vorher, ausschuss, r); p.Abgelehnt? && Rang(p.grund) <= Rang(g)
    {
      match g {
        case ZuWenigeUnterschriften =>
        case FalscherRahmen =>
        case KetteGebrochen =>
        case FremdeQuittung =>
        case QuittungssummenFalsch =>
        case GeldmengeFalsch =>
        case MenschenFalsch =>
      }
    }
  }

  lemma RangEindeutig(g: Grund, g': Grund)
    requires Rang(g) == Rang(g')
    ensures g == g'
  {
  }

  /** A block is accepted exactly if nothing is wrong with it, and rejected for a reason exactly if that is
      the first that applies. */
  lemma BilligGenau(w: Welt, b: BereichsBlock, vorher: Option<BereichsBlock>, ausschuss: seq<string>, r: Rahmen,
                    grund: Grund)
    ensures BilligPruefen(w, b, vorher, ausschuss, r) == Angenommen
      <==> forall g :: !Verletzt(w, b, vorher, ausschuss, r, g)
    ensures BilligPruefen(w, b, vorher, ausschuss, r) == Abgelehnt(grund)
      <==> && Verletzt(w, b, vorher, ausschuss, r, grund)
           && forall g :: Verletzt(w, b, vorher, ausschuss, r, g) ==> Rang(grund) <= Rang(g)
  {
    hide BilligPruefen, Verletzt, Rang;
    ErsterGrund(w, b, vorher, ausschuss, r);
    var p := BilligPruefen(w, b, vorher, ausschuss, r);
    if p.Abgelehnt? && Rang(p.grund) == Rang(grund) { RangEindeutig(p.grund, grund); }
  }

  // ---- a chain of heads ----------------------------------------------------------------------

  /** Each block was accepted after the one before it, by the committee and frame of its time. */
  predicate Angenommene(w: Welt, bs: seq<BereichsBlock>, ausschuesse: seq<seq<string>>, rahmen: seq<Rahmen>)
    requires |ausschuesse| == |rahmen| == |bs|
  {
    forall i :: 0 <= i < |bs| ==>
      BilligPruefen(w, bs[i], Davor(bs, i), ausschuesse[i], rahmen[i]) == Angenommen
  }

  function Davor(bs: seq<BereichsBlock>, i: nat): Option<BereichsBlock>
    requires i < |bs|
  {
    if i == 0 then None else Some(bs[i - 1])
  }

  /** What came in less what went out, in whole numbers. */
  function Saldo(bs: seq<BereichsBlock>): int {
    if bs == [] then 0
    else Saldo(bs[..|bs| - 1]) + Beitrag(bs[|bs| - 1].teilsumme)
  }

  function Beitrag(t: Teilsumme): int {
    t.eingang + t.geschoepft + t.geAusgezahlt - t.ausgang - t.gebuehren - t.ausstiege
  }

  function NeueMenschen(bs: seq<BereichsBlock>): int {
    if bs == [] then 0 else NeueMenschen(bs[..|bs| - 1]) + bs[|bs| - 1].teilsumme.neueMenschen
  }

  lemma OhneLetzten(w: Welt, bs: seq<BereichsBlock>, ausschuesse: seq<seq<string>>, rahmen: seq<Rahmen>)
    requires |ausschuesse| == |rahmen| == |bs| > 0 && Angenommene(w, bs, ausschuesse, rahmen)
    ensures var n := |bs| - 1; Angenommene(w, bs[..n], ausschuesse[..n], rahmen[..n])
  {
    hide BilligPruefen;
    var n := |bs| - 1;
    forall i | 0 <= i < n ensures bs[..n][i] == bs[i] && Davor(bs[..n], i) == Davor(bs, i) {}
  }

  lemma LetzterAngenommen(w: Welt, bs: seq<BereichsBlock>, ausschuesse: seq<seq<string>>, rahmen: seq<Rahmen>)
    requires |ausschuesse| == |rahmen| == |bs| > 0 && Angenommene(w, bs, ausschuesse, rahmen)
    ensures var n := |bs| - 1; BilligPruefen(w, bs[n], Davor(bs, n), ausschuesse[n], rahmen[n]) == Angenommen
  {
    hide BilligPruefen;
  }

  lemma {:induction false} Kettensaldo(w: Welt, bs: seq<BereichsBlock>, ausschuesse: seq<seq<string>>,
                                       rahmen: seq<Rahmen>)
    requires |ausschuesse| == |rahmen| == |bs| > 0 && Angenommene(w, bs, ausschuesse, rahmen)
    ensures var b := bs[|bs| - 1]; b.geldmenge == Wrap(Saldo(bs)) >= 0 && b.menschen == NeueMenschen(bs)
  {
    hide Angenommene, BilligPruefen, Wrap, Beitrag, Soll;
    var n := |bs| - 1;
    LetzterAngenommen(w, bs, ausschuesse, rahmen);
    AngenommenHeisst(w, bs[n], Davor(bs, n), ausschuesse[n], rahmen[n]);
    if n == 0 {
      assert Saldo(bs[..0]) == 0 && NeueMenschen(bs[..0]) == 0;
      SollIst(0, 0, bs[0].teilsumme);
    } else {
      OhneLetzten(w, bs, ausschuesse, rahmen);
      Kettensaldo(w, bs[..n], ausschuesse[..n], rahmen[..n]);
      SollIst(bs[n - 1].geldmenge, Saldo(bs[..n]), bs[n].teilsumme);
    }
  }

  /** Along an accepted chain every block continues the one before it, and the last head reports
      the balance of all partial sums: no head can slip money or people in or out. */
  lemma KopfketteErhaelt(w: Welt, bs: seq<BereichsBlock>, ausschuesse: seq<seq<string>>, rahmen: seq<Rahmen>)
    requires |ausschuesse| == |rahmen| == |bs| > 0 && Angenommene(w, bs, ausschuesse, rahmen)
    ensures var b := bs[|bs| - 1]; b.geldmenge == Wrap(Saldo(bs)) >= 0 && b.menschen == NeueMenschen(bs)
    ensures forall i :: 0 < i < |bs| ==> bs[i].vor == bs[i - 1].nach && bs[i].nr == (bs[i - 1].nr + 1) % ZWEI64
  {
    hide Angenommene, Saldo, NeueMenschen, Wrap;
    Kettensaldo(w, bs, ausschuesse, rahmen);
    forall i | 0 < i < |bs| ensures bs[i].vor == bs[i - 1].nach && bs[i].nr == (bs[i - 1].nr + 1) % ZWEI64 {
      NachDemVorigen(w, bs, ausschuesse, rahmen, i);
    }
  }

  lemma NachDemVorigen(w: Welt, bs: seq<BereichsBlock>, ausschuesse: seq<seq<string>>, rahmen: seq<Rahmen>, i: nat)
    requires |ausschuesse| == |rahmen| == |bs| && Angenommene(w, bs, ausschuesse, rahmen) && 0 < i < |bs|
    ensures bs[i].vor == bs[i - 1].nach && bs[i].nr == (bs[i - 1].nr + 1) % ZWEI64
  {
    hide BilligPruefen;
    AngenommenHeisst(w, bs[i], Davor(bs, i), ausschuesse[i], rahmen[i]);
  }

  lemma SollIst(vorher: Int64, saldo: int, t: Teilsumme)
    requires vorher == Wrap(saldo)
    ensures Soll(vorher, t) == Wrap(saldo + Beitrag(t))
  {
    hide Wrap;
    BlockKlassen.WrapSumme(saldo, Beitrag(t));
  }

  lemma AngenommenHeisst(w: Welt, b: BereichsBlock, vorher: Option<BereichsBlock>, ausschuss: seq<string>, r: Rahmen)
    requires BilligPruefen(w, b, vorher, ausschuss, r) == Angenommen
    ensures b.geldmenge == Soll(if vorher.Some? then vorher.wert.geldmenge else 0, b.teilsumme) >= 0
    ensures b.menschen == (if vorher.Some? then vorher.wert.menschen else 0) + b.teilsumme.neueMenschen
    ensures vorher.Some? ==> b.vor == vorher.wert.nach && b.nr == (vorher.wert.nr + 1) % ZWEI64
  {
    hide BestaetigtVon, Soll;
  }
}
