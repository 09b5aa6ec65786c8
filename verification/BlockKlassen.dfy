/**
 Shard and epoch blocks as the program computes them: signing a block, counting
 signatures, the cheap checks and the epoch block, each loop against its function.
 */
module BlockKlassen {
  import opened Typen
  import opened Bereich
  import opened Sammel
  import G = Geld

  // ---- signing --------------------------------------------------------------------------

  /** Signatures that check: what a member's key produces. */
  type Signierer = (string, Nachricht) -> seq<int>

  class Blockentwurf {
    var b: BereichsBlock

    constructor (b: BereichsBlock)
      ensures this.b == b
    {
      this.b := b;
    }

    /** Adds one signature under the head, which signing does not change. */
    method Unterschreibe(w: Welt, s: Signierer, addr: string)
      requires w.bestaetigt(addr, Nachricht(false, Kopf(w, b)), s(addr, Nachricht(false, Kopf(w, b))))
      modifies this
      ensures Kopf(w, b) == old(Kopf(w, b)) && b == old(b).(sig := b.sig)
      ensures HatUnterschrieben(w, b.sig, addr, Nachricht(false, Kopf(w, b)))
      ensures forall a, n :: a != addr ==>
        (HatUnterschrieben(w, b.sig, a, n) <==> HatUnterschrieben(w, old(b.sig), a, n))
    {
      var k := Kopf(w, b);
      b := b.(sig := b.sig[addr := s(addr, Nachricht(false, k))]);
    }

    /** Adds one marked signature of the checking committee. */
    method PruefUnterschrift(w: Welt, s: Signierer, addr: string)
      requires w.bestaetigt(addr, Nachricht(true, Kopf(w, b)), s(addr, Nachricht(true, Kopf(w, b))))
      modifies this
      ensures Kopf(w, b) == old(Kopf(w, b)) && b == old(b).(pruefSig := b.pruefSig)
      ensures HatUnterschrieben(w, b.pruefSig, addr, Nachricht(true, Kopf(w, b)))
      ensures forall a, n :: a != addr ==>
        (HatUnterschrieben(w, b.pruefSig, a, n) <==> HatUnterschrieben(w, old(b.pruefSig), a, n))
    {
      var k := Kopf(w, b);
      var roh := s(addr, Nachricht(true, k));
      assert (PRUEF + roh)[|PRUEF|..] == roh;
      b := b.(pruefSig := b.pruefSig[addr := PRUEF + roh]);
    }
  }

  // ---- counting -------------------------------------------------------------------------

  method ZaehleGueltige(w: Welt, sig: map<string, seq<int>>, ausschuss: seq<string>, n: Nachricht) returns (k: nat)
    ensures k == Zaehle(w, sig, ausschuss, n)
  {
    var praefix := if n.pruef then PRUEF else [];
    k := 0;
    for i := 0 to |ausschuss|
      invariant k == Zaehle(w, sig, ausschuss[..i], n)
    {
      var a := ausschuss[i];
      assert ausschuss[..i + 1][..i] == ausschuss[..i];
      if a !in sig || !(praefix <= sig[a]) { continue; }
      if w.bestaetigt(a, n, sig[a][|praefix|..]) { k := k + 1; }
    }
    assert ausschuss[..|ausschuss|] == ausschuss;
  }

  // ---- the cheap checks -------------------------------------------------------------------

  /** Machine addition may be done one at a time. */
  lemma WrapSumme(x: int, y: int)
    ensures Wrap(Wrap(x) + y) == Wrap(x + y)
  {
    var d := (Wrap(x) - x) / ZWEI64;
    Vielfaches(x - Wrap(x), ZWEI64);
    var q :| x - Wrap(x) == ZWEI64 * q;
    RestNach(Wrap(x) + y + ZWEI63, q);
  }

  lemma Vielfaches(x: int, m: int)
    requires m > 0 && x % m == 0
    ensures exists q: int :: x == m * q
  {
    assert x == m * (x / m);
  }

  lemma {:induction false} RestNach(x: int, q: int)
    ensures (x + ZWEI64 * q) % ZWEI64 == x % ZWEI64
    decreases if q < 0 then -q else q
  {
    if q > 0 {
      RestNach(x + ZWEI64, q - 1);
    } else if q < 0 {
      RestNach(x - ZWEI64, q + 1);
    }
  }

  method Quittungssumme(qs: seq<Quittung>) returns (s: Int64)
    ensures s == Wrap(G.Betraege(qs))
  {
    s := 0;
    for i := 0 to |qs|
      invariant s == Wrap(G.Betraege(qs[..i]))
    {
      assert qs[..i + 1][..i] == qs[..i];
      WrapSumme(G.Betraege(qs[..i]), qs[i].betrag);
      s := Wrap(s + qs[i].betrag);
    }
    assert qs[..|qs|] == qs;
  }

  method BilligPruefenSchritte(w: Welt, b: BereichsBlock, vorher: Option<BereichsBlock>, ausschuss: seq<string>,
                               r: Rahmen)
    returns (p: Pruefung)
    ensures p == BilligPruefen(w, b, vorher, ausschuss, r)
  {
    hide Kopf;
    var stimmen := ZaehleGueltige(w, b.sig, ausschuss, Nachricht(false, Kopf(w, b)));
    if stimmen < Mehrheit(|ausschuss|) { return Abgelehnt(ZuWenigeUnterschriften); }
    if b.rahmen != r { return Abgelehnt(FalscherRahmen); }
    var vg: Int64, vm := 0, 0;
    if vorher.Some? {
      vg, vm := vorher.wert.geldmenge, vorher.wert.menschen;
      if b.nr != (vorher.wert.nr + 1) % ZWEI64 || b.vor != vorher.wert.nach { return Abgelehnt(KetteGebrochen); }
    }
    var aus: Int64 := 0;
    for i := 0 to |b.ausgang|
      invariant aus == Wrap(G.Betraege(b.ausgang[..i]))
      invariant forall j :: 0 <= j < i ==> b.ausgang[j].vonBereich == b.bereich && b.ausgang[j].betrag > 0
    {
      if b.ausgang[i].vonBereich != b.bereich || b.ausgang[i].betrag <= 0 {
        assert b.ausgang[i] in b.ausgang;
        return Abgelehnt(FremdeQuittung);
      }
      assert b.ausgang[..i + 1][..i] == b.ausgang[..i];
      WrapSumme(G.Betraege(b.ausgang[..i]), b.ausgang[i].betrag);
      aus := Wrap(aus + b.ausgang[i].betrag);
    }
    assert b.ausgang[..|b.ausgang|] == b.ausgang;
    var ein := Quittungssumme(b.eingaben.eingang);
    if aus != b.teilsumme.ausgang || ein != b.teilsumme.eingang { return Abgelehnt(QuittungssummenFalsch); }
    if b.geldmenge != Soll(vg, b.teilsumme) || b.geldmenge < 0 { return Abgelehnt(GeldmengeFalsch); }
    if b.menschen != vm + b.teilsumme.neueMenschen { return Abgelehnt(MenschenFalsch); }
    p := Angenommen;
  }

  // ---- the epoch block --------------------------------------------------------------------

  method NaechsterSammelblock(w: Welt, vor: Sammelblock, geldmengen: seq<Int64>, menschen: seq<int>,
                              bloecke: seq<BereichsBlock>, offen: Int64) returns (s: Sammelblock)
    ensures s == Naechster(w, vor, geldmengen, menschen, bloecke, offen)
  {
    hide Kopf, Verteilt, Addiert, SammelHash;
    s := Kopfzeile(w, vor, geldmengen, menschen);
    for i := 0 to |bloecke|
      invariant s == Addiert(w, vor, geldmengen, menschen, bloecke[..i], 0)
    {
      NaechsterBlock(w, vor, geldmengen, menschen, bloecke[..i + 1]);
      assert bloecke[..i + 1][..i] == bloecke[..i];
      var t := bloecke[i].teilsumme;
      s := s.(topf := Wrap(s.topf + Wrap(t.gebuehren - t.geAusgezahlt)), neuFuerGE := Wrap(s.neuFuerGE + t.gebuehren),
              geschoepft := Wrap(s.geschoepft + t.geschoepft), ausgestiegen := Wrap(s.ausgestiegen + t.ausstiege),
              koepfe := s.koepfe + [Kopf(w, bloecke[i])]);
    }
    assert bloecke[..|bloecke|] == bloecke;
    OffenDazu(w, vor, geldmengen, menschen, bloecke, offen);
    s := s.(offeneQuittung := offen);
    s := Verteile(s);
  }

  lemma OffenDazu(w: Welt, vor: Sammelblock, geldmengen: seq<Int64>, menschen: seq<int>, bloecke: seq<BereichsBlock>,
                  offen: Int64)
    ensures Addiert(w, vor, geldmengen, menschen, bloecke, 0).(offeneQuittung := offen)
         == Addiert(w, vor, geldmengen, menschen, bloecke, offen)
    ensures var s := Addiert(w, vor, geldmengen, menschen, bloecke, offen); s.geJeMensch == 0 && s.grenze == 0
  {
  }

  /** What the epoch block carries over, and the totals of money and people. */
  method Kopfzeile(w: Welt, vor: Sammelblock, geldmengen: seq<Int64>, menschen: seq<int>) returns (s: Sammelblock)
    ensures s == Addiert(w, vor, geldmengen, menschen, [], 0)
  {
    hide SammelHash;
    s := ANFANG.(epoche := (vor.epoche + 1) % ZWEI64, vorher := SammelHash(w, vor),
                 geschoepft := vor.geschoepft, ausgestiegen := vor.ausgestiegen,
                 geKumuliert := vor.geKumuliert, topf := vor.topf, neuFuerGE := vor.neuFuerGE);
    for i := 0 to |geldmengen|
      invariant s == Addiert(w, vor, geldmengen[..i], [], [], 0)
    {
      assert geldmengen[..i + 1][..i] == geldmengen[..i];
      WrapSumme(Zahlensumme(geldmengen[..i]), geldmengen[i]);
      s := s.(geldmenge := Wrap(s.geldmenge + geldmengen[i]));
    }
    assert geldmengen[..|geldmengen|] == geldmengen;
    for i := 0 to |menschen|
      invariant s == Addiert(w, vor, geldmengen, menschen[..i], [], 0)
    {
      assert menschen[..i + 1][..i] == menschen[..i];
      s := s.(menschen := s.menschen + menschen[i]);
    }
    assert menschen[..|menschen|] == menschen;
  }

  method Verteile(s0: Sammelblock) returns (s: Sammelblock)
    requires s0.geJeMensch == 0 && s0.grenze == 0
    ensures s == Verteilt(s0)
  {
    s := s0;
    if s.menschen > 0 {
      s := s.(geJeMensch := Quo(s.neuFuerGE, s.menschen));
      s := s.(neuFuerGE := Wrap(s.neuFuerGE - s.geJeMensch * s.menschen));
      s := s.(geKumuliert := Wrap(s.geKumuliert + s.geJeMensch));
      s := s.(grenze := Wrap(Quo(s.geldmenge, s.menschen) * GRENZE_FAKTOR));
    }
  }

  lemma NaechsterBlock(w: Welt, vor: Sammelblock, geldmengen: seq<Int64>, menschen: seq<int>,
                       bloecke: seq<BereichsBlock>)
    requires bloecke != []
    ensures var n := |bloecke| - 1; var t := bloecke[n].teilsumme;
      var s := Addiert(w, vor, geldmengen, menschen, bloecke[..n], 0);
      Addiert(w, vor, geldmengen, menschen, bloecke, 0) ==
        s.(topf := Wrap(s.topf + Wrap(t.gebuehren - t.geAusgezahlt)), neuFuerGE := Wrap(s.neuFuerGE + t.gebuehren),
           geschoepft := Wrap(s.geschoepft + t.geschoepft), ausgestiegen := Wrap(s.ausgestiegen + t.ausstiege),
           koepfe := s.koepfe + [Kopf(w, bloecke[n])])
  {
    hide Kopf, Wrap, SammelHash, Zahlensumme, Summiere;
    var n := |bloecke| - 1;
    var t, e := bloecke[n].teilsumme, Summiere(bloecke[..n]);
    SummiereLetzter(bloecke);
    WrapZweimal(vor.topf + e.gebuehren - e.geAusgezahlt, t.gebuehren - t.geAusgezahlt);
    WrapSumme(vor.neuFuerGE + e.gebuehren, t.gebuehren);
    WrapSumme(vor.geschoepft + e.geschoepft, t.geschoepft);
    WrapSumme(vor.ausgestiegen + e.ausstiege, t.ausstiege);
    KoepfeLetzter(w, vor, geldmengen, menschen, bloecke);
  }

  lemma SummiereLetzter(bs: seq<BereichsBlock>)
    requires bs != []
    ensures var n := |bs| - 1; var e, t := Summiere(bs[..n]), bs[n].teilsumme;
      Summiere(bs) == Epochensumme(e.gebuehren + t.gebuehren, e.geAusgezahlt + t.geAusgezahlt,
                                   e.geschoepft + t.geschoepft, e.ausstiege + t.ausstiege)
  {
  }

  lemma WrapZweimal(x: int, y: int)
    ensures Wrap(Wrap(x) + Wrap(y)) == Wrap(x + y)
  {
    hide Wrap;
    WrapSumme(x, Wrap(y));
    WrapSumme(y, x);
  }

  lemma KoepfeLetzter(w: Welt, vor: Sammelblock, geldmengen: seq<Int64>, menschen: seq<int>,
                      bloecke: seq<BereichsBlock>)
    requires bloecke != []
    ensures var n := |bloecke| - 1;
      Addiert(w, vor, geldmengen, menschen, bloecke, 0).koepfe
        == Addiert(w, vor, geldmengen, menschen, bloecke[..n], 0).koepfe + [Kopf(w, bloecke[n])]
  {
    hide Kopf, Wrap, SammelHash, Zahlensumme, Summiere;
  }
}
