/**
 The state of a fraud proof runs in step with the full state: on any block it
 either lacks something it was not given, or does exactly the same.
 */
module Gleichlauf {
  import opened Typen
  import opened Uebergang
  import S = Smt

  /** Keys of the proven accounts and receipts. */
  ghost function Schluessel(w: Welt, z: Zustand): set<Hash>
    requires z.Bewiesen?
  {
    (set a | a in z.konten :: KontoSchluessel(w, a)) + (set id | id in z.quittungen :: QuittungSchluessel(w, id))
  }

  /** U names the accounts and receipts of an input. */
  ghost predicate EingabeBenannt(e: Eingabe, U: iset<Urbild>) {
    match e
    case Einloesung(q) => KontoSchluesselU(q.an) in U && QuittungSchluesselU(q.id) in U
    case Anmeldung(a) => KontoSchluesselU(a) in U
    case Zahlung(_, u) => KontoSchluesselU(u.von) in U && KontoSchluesselU(u.an) in U
  }

  /** All accounts and receipts of z are named in U, so their keys do not collide. */
  ghost predicate Benannt(z: Zustand, U: iset<Urbild>)
    requires z.Bewiesen?
  {
    && (forall a :: a in z.konten ==> KontoSchluesselU(a) in U)
    && (forall id :: id in z.quittungen ==> QuittungSchluesselU(id) in U)
  }

  /** The proof state p shows a true excerpt of the full state v. */
  ghost predicate Auszug(w: Welt, U: iset<Urbild>, p: Zustand, v: Zustand) {
    && p.Bewiesen? && v.Voll? && Benannt(p, U)
    && (forall a :: a in p.konten ==> p.konten[a] == Inhalt(v.konten, a))
    && QuittungenStimmen(w, p.quittungen, v.baum)
    && S.Stimmt(p.baum, v.baum, Schluessel(w, p))
  }

  ghost predicate QuittungenStimmen(w: Welt, quittungen: map<Hash, bool>, v: S.Baum) {
    forall id :: id in quittungen ==> quittungen[id] == Eingeloest(w, v, id)
  }

  /** Same execution so far, on an excerpt and on the full state. */
  ghost predicate Gleich(w: Welt, U: iset<Urbild>, p: Lauf, v: Lauf) {
    && Auszug(w, U, p.z, v.z)
    && p.(z := v.z) == v
  }

  /** Everything read so far is in the excerpt. */
  predicate Umfasst(l: Lauf, p: Zustand)
    requires p.Bewiesen?
  {
    l.beruehrt <= p.konten.Keys && forall id :: id in l.quittungen ==> id in p.quittungen
  }

  predicate GleicheNamen(p: Zustand, p': Zustand) {
    p.Bewiesen? && p'.Bewiesen? && p.konten.Keys == p'.konten.Keys && p.quittungen.Keys == p'.quittungen.Keys
  }

  lemma StimmtNachSetze(w: Welt, p: S.Baum, v: S.Baum, P: set<Hash>, k: Hash, wert: Hash)
    requires S.Stimmt(p, v, P) && k in P
    ensures S.Stimmt(S.Setze(w, p, k, wert), S.Setze(w, v, k, wert), P)
  {
    forall k' | k' in P ensures S.StimmtAuf(S.Setze(w, p, k, wert), S.Setze(w, v, k, wert), k') {
      S.SetzeSimuliert(w, p, v, k, wert, k');
    }
  }

  lemma SetzeKontoGleich(w: Welt, U: iset<Urbild>, p: Zustand, v: Zustand, a: string, k: Konto)
    requires Sicher(w, U) && Auszug(w, U, p, v) && a in p.konten
    ensures Auszug(w, U, SetzeKonto(w, p, a, k), SetzeKonto(w, v, a, k))
    ensures GleicheNamen(p, SetzeKonto(w, p, a, k))
  {
    hide S.Setze, S.Stimmt;
    var p', v' := SetzeKonto(w, p, a, k), SetzeKonto(w, v, a, k);
    assert p'.konten.Keys == p.konten.Keys;
    assert S.Stimmt(p'.baum, v'.baum, Schluessel(w, p')) by {
      assert Schluessel(w, p') == Schluessel(w, p);
      StimmtNachSetze(w, p.baum, v.baum, Schluessel(w, p), KontoSchluessel(w, a), KontoHash(w, a, k));
    }
    assert QuittungenStimmen(w, p.quittungen, v'.baum) by {
      forall id | id in p.quittungen ensures p.quittungen[id] == Eingeloest(w, v'.baum, id) {
        S.SetzeWert(w, v.baum, KontoSchluessel(w, a), KontoHash(w, a, k), QuittungSchluessel(w, id));
        assert KontoSchluesselU(a) in U && QuittungSchluesselU(id) in U;
      }
    }
  }

  lemma VerbraucheGleich(w: Welt, U: iset<Urbild>, p: Zustand, v: Zustand, id: Hash)
    requires Sicher(w, U) && Auszug(w, U, p, v) && id in p.quittungen
    ensures Auszug(w, U, Verbrauche(w, p, id), Verbrauche(w, v, id))
    ensures GleicheNamen(p, Verbrauche(w, p, id))
  {
    hide S.Setze, S.Stimmt;
    var p', v' := Verbrauche(w, p, id), Verbrauche(w, v, id);
    assert p'.quittungen.Keys == p.quittungen.Keys;
    assert S.Stimmt(p'.baum, v'.baum, Schluessel(w, p')) by {
      assert Schluessel(w, p') == Schluessel(w, p);
      StimmtNachSetze(w, p.baum, v.baum, Schluessel(w, p), QuittungSchluessel(w, id), VerbrauchtWert(w));
    }
    assert QuittungenStimmen(w, p'.quittungen, v'.baum) by {
      forall id' | id' in p'.quittungen ensures p'.quittungen[id'] == Eingeloest(w, v'.baum, id') {
        S.SetzeWert(w, v.baum, QuittungSchluessel(w, id), VerbrauchtWert(w), QuittungSchluessel(w, id'));
        assert QuittungSchluesselU(id) in U && QuittungSchluesselU(id') in U;
      }
    }
  }

  /** The proof side stops for want of a proof exactly when the full side read something
      outside the excerpt; otherwise both end alike. */
  ghost predicate Genauso(w: Welt, U: iset<Urbild>, p: Zustand, sp: Schritt, sv: Schritt)
    requires p.Bewiesen?
  {
    && (sp.Abbruch? && sp.fehler == FehltImBeweis <==> !Umfasst(sv.lauf, p))
    && (Umfasst(sv.lauf, p) ==>
        && Gleich(w, U, sp.lauf, sv.lauf)
        && GleicheNamen(p, sp.lauf.z)
        && (sp.Weiter? <==> sv.Weiter?)
        && (sp.Abbruch? ==> sp.fehler == sv.fehler))
  }

  lemma AuszugLiest(w: Welt, U: iset<Urbild>, p: Zustand, v: Zustand, a: string, id: Hash)
    requires Auszug(w, U, p, v)
    ensures p.Bewiesen? && v.Voll?
    ensures LiesKonto(v, a).Some? && Verbraucht(w, v, id).Some?
    ensures LiesKonto(p, a) == if a in p.konten then Some(p.konten[a]) else None
    ensures Verbraucht(w, p, id) == if id in p.quittungen then Some(p.quittungen[id]) else None
    ensures a in p.konten ==> LiesKonto(p, a) == LiesKonto(v, a)
    ensures id in p.quittungen ==> Verbraucht(w, p, id) == Verbraucht(w, v, id)
  {
  }

  lemma GutschriftLiestNichts(w: Welt, r: Rahmen, l: Lauf, a: string, k: Konto, betrag: Int64)
    ensures var l' := Gutschrift(w, r, l, a, k, betrag);
      l'.beruehrt == l.beruehrt && l'.quittungen == l.quittungen
  {
  }

  lemma GutschriftGleich(w: Welt, U: iset<Urbild>, r: Rahmen, p: Lauf, v: Lauf, a: string, k: Konto, betrag: Int64)
    requires Sicher(w, U) && Gleich(w, U, p, v) && a in p.z.konten
    ensures Gleich(w, U, Gutschrift(w, r, p, a, k, betrag), Gutschrift(w, r, v, a, k, betrag))
    ensures GleicheNamen(p.z, Gutschrift(w, r, p, a, k, betrag).z)
  {
    hide Auszug, Nachgetragen, Gekappt, Kappung, Nachtrag, SetzeKonto, GleicheNamen;
    var k1 := Nachgetragen(r, k);
    SetzeKontoGleich(w, U, p.z, v.z, a, Gekappt(r, k1.(guthaben := Wrap(k1.guthaben + betrag))));
  }

  lemma EinloesenGenauso(w: Welt, U: iset<Urbild>, b: Block, p: Lauf, v: Lauf, q: Quittung)
    requires Sicher(w, U) && Gleich(w, U, p, v) && Umfasst(v, p.z)
    ensures Genauso(w, U, p.z, Einloesen(w, b, p, q), Einloesen(w, b, v, q))
  {
    hide Auszug, Gutschrift, SetzeKonto, Verbrauche, Verbraucht, Eingeloest, LiesKonto;
    AuszugLiest(w, U, p.z, v.z, q.an, q.id);
    var v2 := v.(quittungen := v.quittungen + [q.id], z := Verbrauche(w, v.z, q.id), beruehrt := v.beruehrt + {q.an});
    if LiesKonto(v2.z, q.an).Some? {
      GutschriftLiestNichts(w, b.rahmen, v2, q.an, LiesKonto(v2.z, q.an).wert, q.betrag);
    }
    if q.id in p.z.quittungen && !p.z.quittungen[q.id] {
      VerbraucheGleich(w, U, p.z, v.z, q.id);
      var p2 := v2.(z := Verbrauche(w, p.z, q.id));
      AuszugLiest(w, U, p2.z, v2.z, q.an, q.id);
      if q.an in p2.z.konten {
        GutschriftGleich(w, U, b.rahmen, p2, v2, q.an, p2.z.konten[q.an], q.betrag);
      }
    }
  }

  lemma AnmeldenGenauso(w: Welt, U: iset<Urbild>, b: Block, p: Lauf, v: Lauf, a: string)
    requires Sicher(w, U) && Gleich(w, U, p, v) && Umfasst(v, p.z)
    ensures Genauso(w, U, p.z, Anmelden(w, b, p, a), Anmelden(w, b, v, a))
  {
    hide Auszug, SetzeKonto;
    AuszugLiest(w, U, p.z, v.z, a, NULL);
    if a in p.z.konten {
      var k := p.z.konten[a];
      SetzeKontoGleich(w, U, p.z, v.z, a,
        k.(mensch := true, geStand := b.rahmen.geKumuliert, guthaben := Wrap(k.guthaben + GRUNDBETRAG)));
    }
  }

  /** Not covered: only the caught-up account is written. */
  lemma UngedecktGenauso(w: Welt, U: iset<Urbild>, b: Block, p: Lauf, v: Lauf, i: nat, u: Ueberweisung, k: Konto)
    requires Sicher(w, U) && Gleich(w, U, p, v) && Umfasst(v, p.z) && u.von in p.z.konten
    requires !Gedeckt(u, Nachgetragen(b.rahmen, k))
    ensures Genauso(w, U, p.z, Belaste(w, b, p, i, u, k), Belaste(w, b, v, i, u, k))
  {
    hide Auszug, Gutschrift, SetzeKonto, Nachgetragen, Nachtrag, Belastet, Gedeckt, LiesKonto, Gebuehr, Wrap, Sicher;
    SetzeKontoGleich(w, U, p.z, v.z, u.von, Nachgetragen(b.rahmen, k));
  }

  /** Out of the system. */
  lemma AusstiegGenauso(w: Welt, U: iset<Urbild>, b: Block, p: Lauf, v: Lauf, i: nat, u: Ueberweisung, k: Konto)
    requires Sicher(w, U) && Gleich(w, U, p, v) && Umfasst(v, p.z) && u.von in p.z.konten
    requires Gedeckt(u, Nachgetragen(b.rahmen, k)) && u.ausstieg
    ensures Genauso(w, U, p.z, Belaste(w, b, p, i, u, k), Belaste(w, b, v, i, u, k))
  {
    hide Auszug, Gutschrift, SetzeKonto, Nachgetragen, Nachtrag, Belastet, Gedeckt, LiesKonto, Gebuehr, Wrap, Sicher;
    SetzeKontoGleich(w, U, p.z, v.z, u.von, Belastet(u, Nachgetragen(b.rahmen, k)));
  }

  /** Into another shard. */
  lemma FremdGenauso(w: Welt, U: iset<Urbild>, b: Block, p: Lauf, v: Lauf, i: nat, u: Ueberweisung, k: Konto)
    requires Sicher(w, U) && Gleich(w, U, p, v) && Umfasst(v, p.z) && u.von in p.z.konten
    requires Gedeckt(u, Nachgetragen(b.rahmen, k)) && !u.ausstieg && w.bereichVon(u.an, b.rahmen.s) != b.bereich
    ensures Genauso(w, U, p.z, Belaste(w, b, p, i, u, k), Belaste(w, b, v, i, u, k))
  {
    hide Auszug, Gutschrift, SetzeKonto, Nachgetragen, Nachtrag, Belastet, Gedeckt, LiesKonto, Gebuehr, Wrap, Sicher;
    SetzeKontoGleich(w, U, p.z, v.z, u.von, Belastet(u, Nachgetragen(b.rahmen, k)));
  }

  /** To an account of the same shard, which may lack a proof. */
  lemma HierGenauso(w: Welt, U: iset<Urbild>, b: Block, p: Lauf, v: Lauf, i: nat, u: Ueberweisung, k: Konto)
    requires Sicher(w, U) && Gleich(w, U, p, v) && Umfasst(v, p.z) && u.von in p.z.konten
    requires Gedeckt(u, Nachgetragen(b.rahmen, k)) && !u.ausstieg && w.bereichVon(u.an, b.rahmen.s) == b.bereich
    ensures Genauso(w, U, p.z, Belaste(w, b, p, i, u, k), Belaste(w, b, v, i, u, k))
  {
    hide Auszug, Gutschrift, SetzeKonto, Nachgetragen, Nachtrag, Belastet, Gedeckt, LiesKonto, Gebuehr, Wrap, Sicher;
    SetzeKontoGleich(w, U, p.z, v.z, u.von, Belastet(u, Nachgetragen(b.rahmen, k)));
    var von := Belastet(u, Nachgetragen(b.rahmen, k));
    var t := p.t.(geAusgezahlt := Wrap(p.t.geAusgezahlt + Nachtrag(b.rahmen, k)),
                  gebuehren := Wrap(p.t.gebuehren + Gebuehr(u.betrag)));
    var p3 := p.(z := SetzeKonto(w, p.z, u.von, von), t := t, beruehrt := p.beruehrt + {u.an});
    var v3 := v.(z := SetzeKonto(w, v.z, u.von, von), t := t, beruehrt := v.beruehrt + {u.an});
    AuszugLiest(w, U, p3.z, v3.z, u.an, NULL);
    GutschriftLiestNichts(w, b.rahmen, v3, u.an, LiesKonto(v3.z, u.an).wert, u.betrag);
    if u.an in p.z.konten {
      GutschriftGleich(w, U, b.rahmen, p3, v3, u.an, p3.z.konten[u.an], u.betrag);
    }
  }

  lemma BelasteGenauso(w: Welt, U: iset<Urbild>, b: Block, p: Lauf, v: Lauf, i: nat, u: Ueberweisung, k: Konto)
    requires Sicher(w, U) && Gleich(w, U, p, v) && Umfasst(v, p.z) && u.von in p.z.konten
    ensures Genauso(w, U, p.z, Belaste(w, b, p, i, u, k), Belaste(w, b, v, i, u, k))
  {
    hide Genauso, Gleich, Belaste, Gedeckt, Nachgetragen, Umfasst, Sicher;
    if !Gedeckt(u, Nachgetragen(b.rahmen, k)) { UngedecktGenauso(w, U, b, p, v, i, u, k); }
    else if u.ausstieg { AusstiegGenauso(w, U, b, p, v, i, u, k); }
    else if w.bereichVon(u.an, b.rahmen.s) == b.bereich { HierGenauso(w, U, b, p, v, i, u, k); }
    else { FremdGenauso(w, U, b, p, v, i, u, k); }
  }

  lemma BelasteLiestMehr(w: Welt, b: Block, l: Lauf, i: nat, u: Ueberweisung, k: Konto)
    ensures var l' := Belaste(w, b, l, i, u, k).lauf;
      l.beruehrt <= l'.beruehrt && l.quittungen == l'.quittungen
  {
    hide SetzeKonto, Nachgetragen, Belastet, Gebuehr, Gekappt, Kappung, Nachtrag, Gedeckt;
  }

  lemma TueGenauso(w: Welt, U: iset<Urbild>, b: Block, p: Lauf, v: Lauf, e: Eingabe)
    requires Sicher(w, U) && Gleich(w, U, p, v) && Umfasst(v, p.z)
    ensures Genauso(w, U, p.z, Tue(w, b, p, e), Tue(w, b, v, e))
  {
    hide Auszug, Einloesen, Anmelden, Belaste, LiesKonto, Sicher;
    if e.Zahlung? {
      AuszugLiest(w, U, p.z, v.z, e.u.von, NULL);
      BelasteLiestMehr(w, b, v.(beruehrt := v.beruehrt + {e.u.von}), e.i, e.u, LiesKonto(v.z, e.u.von).wert);
    }
    match e
    case Einloesung(q) => EinloesenGenauso(w, U, b, p, v, q);
    case Anmeldung(a) => AnmeldenGenauso(w, U, b, p, v, a);
    case Zahlung(i, u) =>
      if u.von in p.z.konten {
        var p1, v1 := p.(beruehrt := p.beruehrt + {u.von}), v.(beruehrt := v.beruehrt + {u.von});
        BelasteGenauso(w, U, b, p1, v1, i, u, p.z.konten[u.von]);
      }
  }

  lemma TueLiestMehr(w: Welt, b: Block, l: Lauf, e: Eingabe)
    ensures var l' := Tue(w, b, l, e).lauf;
      l.beruehrt <= l'.beruehrt && l.quittungen <= l'.quittungen
  {
    hide SetzeKonto, Verbrauche, Nachgetragen, Belastet, Gebuehr, Gekappt, Kappung, Nachtrag, Gedeckt;
  }

  /** What was read stays read. */
  lemma {:induction false} FolgeLiestMehr(w: Welt, b: Block, l: Lauf, plan: seq<Eingabe>)
    ensures var l' := Folge(w, b, l, plan).lauf;
      l.beruehrt <= l'.beruehrt && l.quittungen <= l'.quittungen
    decreases |plan|
  {
    if plan != [] {
      TueLiestMehr(w, b, l, plan[0]);
      if Tue(w, b, l, plan[0]).Weiter? { FolgeLiestMehr(w, b, Tue(w, b, l, plan[0]).lauf, plan[1..]); }
    }
  }

  lemma {:induction false} FolgeGenauso(w: Welt, U: iset<Urbild>, b: Block, p: Lauf, v: Lauf, plan: seq<Eingabe>)
    requires Sicher(w, U) && Gleich(w, U, p, v) && Umfasst(v, p.z)
    ensures Genauso(w, U, p.z, Folge(w, b, p, plan), Folge(w, b, v, plan))
    decreases |plan|
  {
    if plan != [] {
      var sp, sv := Tue(w, b, p, plan[0]), Tue(w, b, v, plan[0]);
      TueGenauso(w, U, b, p, v, plan[0]);
      if sv.Weiter? {
        FolgeLiestMehr(w, b, sv.lauf, plan[1..]);
        if Umfasst(sv.lauf, p.z) {
          FolgeGenauso(w, U, b, sp.lauf, sv.lauf, plan[1..]);
        }
      }
    }
  }
}
