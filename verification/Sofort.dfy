/**
 Paying basic income account by account, when an account acts, has the same effect
 as paying everybody first.
 */
module Sofort {
  import opened Typen
  import opened Uebergang
  import opened Gleichlauf
  import S = Smt

  predicate OhneAnspruch(r: Rahmen, k: Konto) { k.mensch ==> r.geKumuliert <= k.geStand }

  /** e is v with every human paid up, and the same receipts redeemed. */
  ghost predicate Vorgezogen(w: Welt, U: iset<Urbild>, r: Rahmen, v: Zustand, e: Zustand) {
    && v.Voll? && e.Voll?
    && (forall a :: Inhalt(e.konten, a) == Nachgetragen(r, Inhalt(v.konten, a)))
    && (forall id :: QuittungSchluesselU(id) in U ==> (Eingeloest(w, v.baum, id) <==> Eingeloest(w, e.baum, id)))
  }

  /** Pay the accounts in `wen` before anything else. */
  ghost function Vorab(w: Welt, r: Rahmen, v: Zustand, wen: set<string>): Zustand {
    if wen == {} then v
    else var a :| a in wen; SetzeKonto(w, Vorab(w, r, v, wen - {a}), a, Nachgetragen(r, Inhalt(v.konten, a)))
  }

  lemma EinloesestandBleibt(w: Welt, U: iset<Urbild>, z: Zustand, a: string, k: Konto, id: Hash)
    requires Sicher(w, U) && KontoSchluesselU(a) in U && QuittungSchluesselU(id) in U
    ensures Eingeloest(w, SetzeKonto(w, z, a, k).baum, id) == Eingeloest(w, z.baum, id)
  {
    hide S.Setze;
    S.SetzeWert(w, z.baum, KontoSchluessel(w, a), KontoHash(w, a, k), QuittungSchluessel(w, id));
  }

  /** Redeeming one receipt redeems just that one. */
  lemma EinloesestandNach(w: Welt, U: iset<Urbild>, z: Zustand, id: Hash, id': Hash)
    requires Sicher(w, U) && QuittungSchluesselU(id) in U && QuittungSchluesselU(id') in U
    ensures Eingeloest(w, Verbrauche(w, z, id).baum, id') <==> id' == id || Eingeloest(w, z.baum, id')
  {
    hide S.Setze;
    S.SetzeWert(w, z.baum, QuittungSchluessel(w, id), VerbrauchtWert(w), QuittungSchluessel(w, id'));
  }

  lemma {:induction false} VorabWirkung(w: Welt, U: iset<Urbild>, r: Rahmen, v: Zustand, wen: set<string>)
    requires Sicher(w, U) && v.Voll? && forall a :: a in wen ==> KontoSchluesselU(a) in U
    ensures var e := Vorab(w, r, v, wen);
      && e.Voll?
      && (forall a :: Inhalt(e.konten, a) ==
            if a in wen then Nachgetragen(r, Inhalt(v.konten, a)) else Inhalt(v.konten, a))
      && (forall id :: QuittungSchluesselU(id) in U ==> Eingeloest(w, v.baum, id) == Eingeloest(w, e.baum, id))
    decreases |wen|
  {
    hide S.Setze, Eingeloest, Sicher, SetzeKonto, Inhalt;
    if wen != {} {
      var a :| a in wen
        && Vorab(w, r, v, wen) == SetzeKonto(w, Vorab(w, r, v, wen - {a}), a, Nachgetragen(r, Inhalt(v.konten, a)));
      VorabWirkung(w, U, r, v, wen - {a});
      forall a' ensures Inhalt(Vorab(w, r, v, wen).konten, a')
        == if a' in wen then Nachgetragen(r, Inhalt(v.konten, a')) else Inhalt(v.konten, a')
      {
        InhaltNachSetze(w, Vorab(w, r, v, wen - {a}), a, Nachgetragen(r, Inhalt(v.konten, a)), a');
      }
      InhaltNachSetze(w, Vorab(w, r, v, wen - {a}), a, Nachgetragen(r, Inhalt(v.konten, a)), a);
      forall id | QuittungSchluesselU(id) in U
        ensures Eingeloest(w, Vorab(w, r, v, wen).baum, id) == Eingeloest(w, v.baum, id)
      {
        EinloesestandBleibt(w, U, Vorab(w, r, v, wen - {a}), a, Nachgetragen(r, Inhalt(v.konten, a)), id);
      }
    }
  }

  /** Paying everyone with an account reaches the state paid up in advance. */
  lemma VorabZahltAlle(w: Welt, U: iset<Urbild>, r: Rahmen, v: Zustand)
    requires Sicher(w, U) && v.Voll? && forall a :: a in v.konten ==> KontoSchluesselU(a) in U
    ensures Vorgezogen(w, U, r, v, Vorab(w, r, v, v.konten.Keys))
  {
    VorabWirkung(w, U, r, v, v.konten.Keys);
  }

  /** Same run so far, one side lazy and one side paid up. */
  ghost predicate Gleichwertig(w: Welt, U: iset<Urbild>, r: Rahmen, l: Lauf, e: Lauf) {
    && Vorgezogen(w, U, r, l.z, e.z)
    && e.(z := l.z, t := e.t.(geAusgezahlt := l.t.geAusgezahlt)) == l
    && e.t.geAusgezahlt == 0
  }

  ghost predicate GleicherSchritt(w: Welt, U: iset<Urbild>, r: Rahmen, l: Schritt, e: Schritt) {
    && Gleichwertig(w, U, r, l.lauf, e.lauf)
    && (l.Weiter? <==> e.Weiter?)
    && (l.Abbruch? ==> l.fehler == e.fehler)
  }

  lemma NachtragEinmal(r: Rahmen, k: Konto)
    ensures OhneAnspruch(r, Nachgetragen(r, k))
    ensures OhneAnspruch(r, k) ==> Nachgetragen(r, k) == k && Nachtrag(r, k) == 0
    ensures Nachgetragen(r, k).mensch == k.mensch && Nachgetragen(r, k).nonce == k.nonce
    ensures !k.mensch ==> Nachgetragen(r, k) == k
  {
  }

  lemma SetzeVorgezogen(w: Welt, U: iset<Urbild>, r: Rahmen, v: Zustand, e: Zustand, a: string, k: Konto)
    requires Sicher(w, U) && Vorgezogen(w, U, r, v, e) && KontoSchluesselU(a) in U && OhneAnspruch(r, k)
    ensures Vorgezogen(w, U, r, SetzeKonto(w, v, a, k), SetzeKonto(w, e, a, k))
  {
    hide S.Setze, Eingeloest, Sicher, SetzeKonto, Inhalt;
    NachtragEinmal(r, k);
    InhaltNachSetze(w, v, a, k, a);
    InhaltNachSetze(w, e, a, k, a);
    forall a'
      ensures Inhalt(SetzeKonto(w, e, a, k).konten, a') == Nachgetragen(r, Inhalt(SetzeKonto(w, v, a, k).konten, a'))
    {
      InhaltNachSetze(w, v, a, k, a');
      InhaltNachSetze(w, e, a, k, a');
    }
    forall id | QuittungSchluesselU(id) in U
      ensures Eingeloest(w, SetzeKonto(w, v, a, k).baum, id) <==> Eingeloest(w, SetzeKonto(w, e, a, k).baum, id)
    {
      EinloesestandBleibt(w, U, v, a, k, id);
      EinloesestandBleibt(w, U, e, a, k, id);
    }
  }

  lemma VerbraucheVorgezogen(w: Welt, U: iset<Urbild>, r: Rahmen, v: Zustand, e: Zustand, id: Hash)
    requires Sicher(w, U) && Vorgezogen(w, U, r, v, e) && QuittungSchluesselU(id) in U
    ensures Vorgezogen(w, U, r, Verbrauche(w, v, id), Verbrauche(w, e, id))
  {
    hide S.Setze, Eingeloest, Sicher;
    forall id' | QuittungSchluesselU(id') in U
      ensures Eingeloest(w, Verbrauche(w, v, id).baum, id') <==> Eingeloest(w, Verbrauche(w, e, id).baum, id')
    {
      EinloesestandNach(w, U, v, id, id');
      EinloesestandNach(w, U, e, id, id');
    }
  }

  lemma GutschriftGleichwertig(w: Welt, U: iset<Urbild>, b: Block, l: Lauf, e: Lauf, a: string, betrag: Int64)
    requires Sicher(w, U) && Gleichwertig(w, U, b.rahmen, l, e) && KontoSchluesselU(a) in U
    ensures Gleichwertig(w, U, b.rahmen, Gutschrift(w, b.rahmen, l, a, Inhalt(l.z.konten, a), betrag),
                                         Gutschrift(w, b.rahmen, e, a, Inhalt(e.z.konten, a), betrag))
  {
    hide S.Setze, SetzeKonto, Sicher, Nachgetragen, Nachtrag, Eingeloest;
    var r, k, k' := b.rahmen, Inhalt(l.z.konten, a), Inhalt(e.z.konten, a);
    assert k' == Nachgetragen(r, k);
    NachtragEinmal(r, k);
    NachtragEinmal(r, k');
    var k2 := k'.(guthaben := Wrap(k'.guthaben + betrag));
    SetzeVorgezogen(w, U, r, l.z, e.z, a, Gekappt(r, k2));
  }

  /** Not covered: only the caught-up account is written. */
  lemma UngedecktGleichwertig(w: Welt, U: iset<Urbild>, b: Block, l: Lauf, e: Lauf, i: nat, u: Ueberweisung)
    requires Sicher(w, U) && Gleichwertig(w, U, b.rahmen, l, e)
    requires KontoSchluesselU(u.von) in U && KontoSchluesselU(u.an) in U
    requires !Gedeckt(u, Nachgetragen(b.rahmen, Inhalt(l.z.konten, u.von)))
    ensures GleicherSchritt(w, U, b.rahmen, Belaste(w, b, l, i, u, Inhalt(l.z.konten, u.von)),
                                            Belaste(w, b, e, i, u, Inhalt(e.z.konten, u.von)))
  {
    hide S.Setze, SetzeKonto, Sicher, Nachgetragen, Nachtrag, Vorgezogen, Gutschrift, Gedeckt, Belastet,
      OhneAnspruch, Wrap, Gebuehr;
    var r, k, k' := b.rahmen, Inhalt(l.z.konten, u.von), Inhalt(e.z.konten, u.von);
    var von := Nachgetragen(r, k);
    VorgezogenInhalt(w, U, r, l.z, e.z, u.von);
    NachtragEinmal(r, k);
    NachtragEinmal(r, k');
    SetzeVorgezogen(w, U, r, l.z, e.z, u.von, von);
  }

  /** Out of the system or into another shard. */
  lemma HinausGleichwertig(w: Welt, U: iset<Urbild>, b: Block, l: Lauf, e: Lauf, i: nat, u: Ueberweisung)
    requires Sicher(w, U) && Gleichwertig(w, U, b.rahmen, l, e)
    requires KontoSchluesselU(u.von) in U && KontoSchluesselU(u.an) in U
    requires Gedeckt(u, Nachgetragen(b.rahmen, Inhalt(l.z.konten, u.von)))
    requires u.ausstieg || w.bereichVon(u.an, b.rahmen.s) != b.bereich
    ensures GleicherSchritt(w, U, b.rahmen, Belaste(w, b, l, i, u, Inhalt(l.z.konten, u.von)),
                                            Belaste(w, b, e, i, u, Inhalt(e.z.konten, u.von)))
  {
    hide S.Setze, SetzeKonto, Sicher, Nachgetragen, Nachtrag, Vorgezogen, Gutschrift, Gedeckt, Belastet,
      OhneAnspruch, Wrap, Gebuehr;
    var r, k, k' := b.rahmen, Inhalt(l.z.konten, u.von), Inhalt(e.z.konten, u.von);
    var von := Nachgetragen(r, k);
    VorgezogenInhalt(w, U, r, l.z, e.z, u.von);
    NachtragEinmal(r, k);
    NachtragEinmal(r, k');
    BelastetOhneAnspruch(r, u, von);
    SetzeVorgezogen(w, U, r, l.z, e.z, u.von, Belastet(u, von));
  }

  /** To an account of the same shard. */
  lemma HierGleichwertig(w: Welt, U: iset<Urbild>, b: Block, l: Lauf, e: Lauf, i: nat, u: Ueberweisung)
    requires Sicher(w, U) && Gleichwertig(w, U, b.rahmen, l, e)
    requires KontoSchluesselU(u.von) in U && KontoSchluesselU(u.an) in U
    requires Gedeckt(u, Nachgetragen(b.rahmen, Inhalt(l.z.konten, u.von)))
    requires !u.ausstieg && w.bereichVon(u.an, b.rahmen.s) == b.bereich
    ensures GleicherSchritt(w, U, b.rahmen, Belaste(w, b, l, i, u, Inhalt(l.z.konten, u.von)),
                                            Belaste(w, b, e, i, u, Inhalt(e.z.konten, u.von)))
  {
    hide S.Setze, SetzeKonto, Sicher, Nachgetragen, Nachtrag, Vorgezogen, Gutschrift, Gedeckt, Belastet,
      OhneAnspruch, Wrap, Gebuehr;
    var r, k, k' := b.rahmen, Inhalt(l.z.konten, u.von), Inhalt(e.z.konten, u.von);
    var von := Nachgetragen(r, k);
    VorgezogenInhalt(w, U, r, l.z, e.z, u.von);
    NachtragEinmal(r, k);
    NachtragEinmal(r, k');
    var v := Belastet(u, von);
    BelastetOhneAnspruch(r, u, von);
    SetzeVorgezogen(w, U, r, l.z, e.z, u.von, v);
    var t := e.t.(gebuehren := Wrap(e.t.gebuehren + Gebuehr(u.betrag)));
    var e3 := e.(z := SetzeKonto(w, e.z, u.von, v), t := t, beruehrt := e.beruehrt + {u.an});
    var l3 := e3.(z := SetzeKonto(w, l.z, u.von, v),
                  t := t.(geAusgezahlt := Wrap(l.t.geAusgezahlt + Nachtrag(r, k))));
    assert Gleichwertig(w, U, r, l3, e3);
    VorgezogenInhalt(w, U, r, l3.z, e3.z, u.an);
    GutschriftGleichwertig(w, U, b, l3, e3, u.an, u.betrag);
  }

  lemma BelasteGleichwertig(w: Welt, U: iset<Urbild>, b: Block, l: Lauf, e: Lauf, i: nat, u: Ueberweisung)
    requires Sicher(w, U) && Gleichwertig(w, U, b.rahmen, l, e)
    requires KontoSchluesselU(u.von) in U && KontoSchluesselU(u.an) in U
    ensures GleicherSchritt(w, U, b.rahmen, Belaste(w, b, l, i, u, Inhalt(l.z.konten, u.von)),
                                            Belaste(w, b, e, i, u, Inhalt(e.z.konten, u.von)))
  {
    hide GleicherSchritt, Gleichwertig, Belaste, Gedeckt, Nachgetragen, Sicher;
    if !Gedeckt(u, Nachgetragen(b.rahmen, Inhalt(l.z.konten, u.von))) { UngedecktGleichwertig(w, U, b, l, e, i, u); }
    else if u.ausstieg || w.bereichVon(u.an, b.rahmen.s) != b.bereich { HinausGleichwertig(w, U, b, l, e, i, u); }
    else { HierGleichwertig(w, U, b, l, e, i, u); }
  }

  lemma BelastetOhneAnspruch(r: Rahmen, u: Ueberweisung, von: Konto)
    requires OhneAnspruch(r, von)
    ensures OhneAnspruch(r, Belastet(u, von))
  {
  }

  lemma VorgezogenInhalt(w: Welt, U: iset<Urbild>, r: Rahmen, v: Zustand, e: Zustand, a: string)
    requires Vorgezogen(w, U, r, v, e)
    ensures v.Voll? && e.Voll? && Inhalt(e.konten, a) == Nachgetragen(r, Inhalt(v.konten, a))
    ensures LiesKonto(v, a) == Some(Inhalt(v.konten, a)) && LiesKonto(e, a) == Some(Inhalt(e.konten, a))
  {
  }

  lemma TueGleichwertig(w: Welt, U: iset<Urbild>, b: Block, l: Lauf, e: Lauf, x: Eingabe)
    requires Sicher(w, U) && Gleichwertig(w, U, b.rahmen, l, e) && EingabeBenannt(x, U)
    ensures GleicherSchritt(w, U, b.rahmen, Tue(w, b, l, x), Tue(w, b, e, x))
  {
    hide S.Setze, SetzeKonto, Sicher, Nachgetragen, Nachtrag, Vorgezogen, Gutschrift, Belaste, OhneAnspruch,
      Verbrauche, Eingeloest;
    var r := b.rahmen;
    match x
    case Einloesung(q) =>
      VorgezogenQuittung(w, U, r, l.z, e.z, q.id);
      VerbraucheVorgezogen(w, U, r, l.z, e.z, q.id);
      var e2 := e.(z := Verbrauche(w, e.z, q.id), beruehrt := e.beruehrt + {q.an}, quittungen := e.quittungen + [q.id]);
      var l2 := l.(z := Verbrauche(w, l.z, q.id), beruehrt := l.beruehrt + {q.an}, quittungen := l.quittungen + [q.id]);
      VorgezogenInhalt(w, U, r, l2.z, e2.z, q.an);
      GutschriftGleichwertig(w, U, b, l2, e2, q.an, q.betrag);
    case Anmeldung(a) =>
      VorgezogenInhalt(w, U, r, l.z, e.z, a);
      var k := Inhalt(l.z.konten, a);
      NachtragEinmal(r, k);
      if !k.mensch {
        var k1 := k.(mensch := true, geStand := r.geKumuliert, guthaben := Wrap(k.guthaben + GRUNDBETRAG));
        assert OhneAnspruch(r, k1) by { NeuOhneAnspruch(r, k1); }
        SetzeVorgezogen(w, U, r, l.z, e.z, a, k1);
      }
    case Zahlung(i, u) =>
      VorgezogenInhalt(w, U, r, l.z, e.z, u.von);
      BelasteGleichwertig(w, U, b, l.(beruehrt := l.beruehrt + {u.von}), e.(beruehrt := e.beruehrt + {u.von}), i, u);
  }

  lemma NeuOhneAnspruch(r: Rahmen, k: Konto)
    requires k.geStand == r.geKumuliert
    ensures OhneAnspruch(r, k)
  {
  }

  lemma VorgezogenQuittung(w: Welt, U: iset<Urbild>, r: Rahmen, v: Zustand, e: Zustand, id: Hash)
    requires Vorgezogen(w, U, r, v, e) && QuittungSchluesselU(id) in U
    ensures Verbraucht(w, v, id) == Verbraucht(w, e, id)
  {
  }

  /** Under one frame, executing lazily or after paying everyone first gives the same
      decisions, receipts, sums (but for the income paid) and virtual balances. */
  lemma {:induction false} SofortGleichwertig(w: Welt, U: iset<Urbild>, b: Block, l: Lauf, e: Lauf, plan: seq<Eingabe>)
    requires Sicher(w, U) && Gleichwertig(w, U, b.rahmen, l, e) && forall x :: x in plan ==> EingabeBenannt(x, U)
    ensures GleicherSchritt(w, U, b.rahmen, Folge(w, b, l, plan), Folge(w, b, e, plan))
    decreases |plan|
  {
    hide Tue, Gleichwertig, EingabeBenannt;
    if plan != [] {
      TueGleichwertig(w, U, b, l, e, plan[0]);
      if Tue(w, b, l, plan[0]).Weiter? {
        SofortGleichwertig(w, U, b, Tue(w, b, l, plan[0]).lauf, Tue(w, b, e, plan[0]).lauf, plan[1..]);
      }
    }
  }

  /** The same for a block: with every account paid in advance the run ends alike. */
  lemma BlockSofortGleichwertig(w: Welt, U: iset<Urbild>, b: Block, v: Zustand, x: Eingaben)
    requires Sicher(w, U) && v.Voll? && (forall a :: a in v.konten ==> KontoSchluesselU(a) in U)
    requires forall y :: y in Plan(x) ==> EingabeBenannt(y, U)
    ensures var sl, se := Ausfuehren(w, b, v, x), Ausfuehren(w, b, Vorab(w, b.rahmen, v, v.konten.Keys), x);
      && (sl.Weiter? <==> se.Weiter?)
      && sl.lauf.ausgang == se.lauf.ausgang && sl.lauf.angewandt == se.lauf.angewandt
      && se.lauf.t == sl.lauf.t.(geAusgezahlt := 0)
      && forall a :: Inhalt(se.lauf.z.konten, a) == Nachgetragen(b.rahmen, Inhalt(sl.lauf.z.konten, a))
  {
    hide Folge, Plan, Sicher, Vorab, EingabeBenannt;
    VorabZahltAlle(w, U, b.rahmen, v);
    SofortGleichwertig(w, U, b, Anfang(v), Anfang(Vorab(w, b.rahmen, v, v.konten.Keys)), Plan(x));
  }
}
