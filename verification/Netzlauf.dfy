/**
 Safety over whole runs of the network.
 */
module Netzlauf {
  import opened Typen
  import opened Uebergang
  import opened Geld
  import opened Bereich
  import opened Sammel
  import opened Netz
  import S = Smt

  // ---- closing an epoch -------------------------------------------------------------------

  /** Promising je more to every human raises the unpaid claims by je per human. */
  lemma {:induction false} AnspruchWaechst(m: map<string, Konto>, g: int, je: int)
    requires Ordentlich(g, m) && 0 <= je
    ensures Summe(m, Anspruch(g + je)) == Summe(m, Anspruch(g)) + Mal(je, Summe(m, Geld.Kopf))
    decreases |m|
  {
    hide Anspruch, KontoOrdentlich, Geld.Kopf, Mal;
    if m != map[] {
      var a :| a in m;
      SummeOhne(m, Anspruch(g + je), a);
      SummeOhne(m, Anspruch(g), a);
      SummeOhne(m, Geld.Kopf, a);
      AnspruchWaechst(m - {a}, g, je);
      AnspruchMehr(m[a], g, je);
      Verteilen(je, Geld.Kopf(m[a]), Summe(m - {a}, Geld.Kopf));
    } else {
      assert Mal(je, 0) == 0 by { MalNull(je); }
    }
  }

  function Mal(x: int, y: int): int { x * y }

  lemma MalNull(x: int)
    ensures Mal(x, 0) == 0
  {
  }

  lemma AnspruchMehr(k: Konto, g: int, je: int)
    requires KontoOrdentlich(g, k) && 0 <= je
    ensures Anspruch(g + je)(k) == Anspruch(g)(k) + Mal(je, Geld.Kopf(k))
  {
  }

  lemma Verteilen(x: int, a: int, b: int)
    ensures Mal(x, a + b) == Mal(x, a) + Mal(x, b)
  {
  }

  lemma {:induction false} GesamtAnspruchWaechst(zs: seq<Zustand>, g: int, je: int)
    requires AlleOrdentlich(g, zs) && 0 <= je
    ensures Gesamt(zs, Anspruch(g + je)) == Gesamt(zs, Anspruch(g)) + Mal(je, Gesamt(zs, Geld.Kopf))
  {
    hide Ordentlich, Summe, Anspruch, Mal;
    if zs != [] {
      var n := |zs| - 1;
      GesamtAnspruchWaechst(zs[..n], g, je);
      AnspruchWaechst(zs[n].konten, g, je);
      Verteilen(je, Gesamt(zs[..n], Geld.Kopf), Summe(zs[n].konten, Geld.Kopf));
    } else {
      MalNull(je);
    }
  }

  lemma {:induction false} ZahlensummeGesamt(zs: seq<Zustand>, f: Konto -> int, xs: seq<int>)
    requires |xs| == |zs| && forall i :: 0 <= i < |xs| ==> xs[i] == Summe(zs[i].konten, f)
    ensures Zahlensumme(xs) == Gesamt(zs, f)
  {
    if xs != [] { ZahlensummeGesamt(zs[..|zs| - 1], f, xs[..|xs| - 1]); }
  }

  /** Bounds on every total of a state that keeps the books. */
  lemma Schranken(n: Netz)
    requires Erhaltung(n) && ImRahmen(n)
    ensures 0 <= Gesamt(n.zustaende, Guthaben) <= Geschoepft(n) < DECKUNGSGRENZE
    ensures 0 <= Offensumme(n.offen) <= Geschoepft(n)
    ensures 0 <= Neu(n) <= Topf(n) <= Geschoepft(n)
    ensures 0 <= Ausgestiegen(n) <= Geschoepft(n) && 0 <= AlleMenschen(n)
    ensures forall i :: 0 <= i < |n.zustaende| ==> 0 <= Geldmenge(n.zustaende[i]) < DECKUNGSGRENZE
  {
    hide Summe, Gesamt, Ordentlich, Anspruch, Topf, Neu, Geschoepft, Ausgestiegen, Angeschlossen;
    var g := n.sammel.geKumuliert;
    OffenNichtnegativ(n.offen);
    GesamtNichtnegativ(n.zustaende, g);
    forall i | 0 <= i < |n.zustaende| ensures 0 <= Geldmenge(n.zustaende[i]) < DECKUNGSGRENZE {
      SchrankenDesBereichs(n, i);
    }
  }

  lemma {:induction false} GesamtNichtnegativ(zs: seq<Zustand>, g: int)
    requires AlleOrdentlich(g, zs) && 0 <= g
    ensures Gesamt(zs, Guthaben) >= 0 && Gesamt(zs, Anspruch(g)) >= 0 && Gesamt(zs, Geld.Kopf) >= 0
  {
    hide Ordentlich, Summe, Anspruch;
    if zs != [] {
      var n := |zs| - 1;
      GesamtNichtnegativ(zs[..n], g);
      Nichtnegativ(g, zs[n].konten);
    }
  }

  /** The epoch block tells the true totals. */
  ghost predicate Abgerechnet(n: Netz) {
    var s := n.sammel;
    && s.geldmenge == Gesamt(n.zustaende, Guthaben) && s.menschen == AlleMenschen(n)
    && s.offeneQuittung == Offensumme(n.offen)
    && s.topf - s.neuFuerGE == Gesamt(n.zustaende, Anspruch(s.geKumuliert))
    && 0 <= s.neuFuerGE <= s.topf
    && (s.menschen > 0 ==> s.neuFuerGE < s.menschen)
    && s.geldmenge + s.offeneQuittung + s.topf == s.geschoepft - s.ausgestiegen
    && s.geschoepft == GRUNDBETRAG * s.menschen
    && s.grenze == (if s.menschen > 0 then 25 * (s.geldmenge / s.menschen) else 0)
    && Erhalten(s)
  }

  /** Sharing out leaves a remainder below the number of humans and promises the rest. */
  lemma VerteiltGenau(s: Sammelblock)
    requires 0 <= s.neuFuerGE < DECKUNGSGRENZE && 0 <= s.menschen < MENSCHENGRENZE
    requires s.neuFuerGE <= GRUNDBETRAG * s.menschen && 0 <= s.geldmenge <= GRUNDBETRAG * s.menschen
    requires 0 <= s.geKumuliert && s.geJeMensch == 0 && s.grenze == 0
    requires s.menschen > 0 ==> s.geKumuliert + s.neuFuerGE / s.menschen < ZWEI63
    ensures var v := Verteilt(s);
      && v == s.(geJeMensch := v.geJeMensch, neuFuerGE := v.neuFuerGE, geKumuliert := v.geKumuliert, grenze := v.grenze)
      && 0 <= v.geJeMensch <= GRUNDBETRAG
      && v.geKumuliert == s.geKumuliert + v.geJeMensch
      && v.neuFuerGE == s.neuFuerGE - v.geJeMensch * s.menschen
      && 0 <= v.neuFuerGE && (s.menschen > 0 ==> v.neuFuerGE < s.menschen)
      && v.geJeMensch == (if s.menschen > 0 then s.neuFuerGE / s.menschen else 0)
      && v.grenze == (if s.menschen > 0 then 25 * (s.geldmenge / s.menschen) else 0)
  {
    if s.menschen > 0 {
      AnteilBegrenzt(s.neuFuerGE, s.menschen);
      AnteilBegrenzt(s.geldmenge, s.menschen);
    }
  }

  lemma AnteilBegrenzt(x: nat, m: nat)
    requires 0 < m && x <= GRUNDBETRAG * m
    ensures 0 <= x / m <= GRUNDBETRAG && 0 <= x - (x / m) * m < m
  {
    var q := x / m;
    assert x == m * q + x % m;
    assert q * m == m * q;
    if q > GRUNDBETRAG {
      Produkt(q - GRUNDBETRAG - 1, m);
      Verteilen(m, q - GRUNDBETRAG - 1, GRUNDBETRAG + 1);
    }
  }

  /** The promise per human still fits 64 bits when this epoch closes. */
  ghost predicate Zusagbar(n: Netz) {
    AlleMenschen(n) > 0 ==> n.sammel.geKumuliert + Neu(n) / AlleMenschen(n) < ZWEI63
  }

  /** An epoch that can make its promise keeps the books and tells the true totals. */
  lemma SchlussErhaelt(w: Welt, n: Netz)
    requires Erhaltung(n) && ImRahmen(n) && Zusagbar(n)
    ensures Erhaltung(Tritt(w, n, Schliesse)) && Abgerechnet(Tritt(w, n, Schliesse))
    ensures Tritt(w, n, Schliesse).sammel.geKumuliert <= n.sammel.geKumuliert + GRUNDBETRAG
    ensures var je := if AlleMenschen(n) > 0 then Neu(n) / AlleMenschen(n) else 0;
      && Tritt(w, n, Schliesse).sammel.geJeMensch == je
      && Tritt(w, n, Schliesse).sammel.geKumuliert == n.sammel.geKumuliert + je
  {
    hide Summe, Gesamt, Ordentlich, AlleOrdentlich, Anspruch, Summiere, Angeschlossen, Offensumme, Verteilt, Addiert,
      Topf, Neu, Geschoepft, Ausgestiegen, Geldmengen, Menschenzahlen, AlleMenschen, Bilanz, Abgerechnet;
    Schranken(n);
    var s := Addiert(w, n.sammel, Geldmengen(n), Menschenzahlen(n), n.bloecke, Wrap(Offensumme(n.offen)));
    AddiertGenau(w, n);
    SummenDerBilanz(n);
    VerteiltGenau(s);
    var v := Verteilt(s);
    SchlussBilanz(w, n, s);
    SpaeterOrdentlich(s.geKumuliert, v.geKumuliert, n.zustaende);
  }

  /** Closing an epoch keeps the books exactly if the promise per human still fits. */
  lemma SchlussGenau(w: Welt, n: Netz)
    requires Erhaltung(n) && ImRahmen(n)
    ensures Bilanz(Tritt(w, n, Schliesse)) <==> Zusagbar(n)
    ensures Erhaltung(Tritt(w, n, Schliesse)) <==> Zusagbar(n)
  {
    hide Erhaltung, ImRahmen, Bilanz, Tritt, Zusagbar;
    NurBilanz(n);
    if Zusagbar(n) {
      SchlussErhaelt(w, n);
      NurBilanz(Tritt(w, n, Schliesse));
    } else {
      UmlaufBricht(w, n);
      if Erhaltung(Tritt(w, n, Schliesse)) { NurBilanz(Tritt(w, n, Schliesse)); }
    }
  }

  lemma NurBilanz(n: Netz)
    requires Erhaltung(n)
    ensures Bilanz(n) && |n.zustaende| == |n.letzter|
  {
  }

  /** A promise that wraps turns negative: nobody is owed anything, but the pool was charged. */
  lemma UmlaufBricht(w: Welt, n: Netz)
    requires Erhaltung(n) && ImRahmen(n) && !Zusagbar(n)
    ensures !Bilanz(Tritt(w, n, Schliesse))
  {
    hide Summe, Gesamt, Ordentlich, AlleOrdentlich, Anspruch, Summiere, Angeschlossen, Offensumme, Verteilt, Addiert,
      Topf, Neu, Geschoepft, Ausgestiegen, Geldmengen, Menschenzahlen, AlleMenschen;
    Schranken(n);
    var s := Addiert(w, n.sammel, Geldmengen(n), Menschenzahlen(n), n.bloecke, Wrap(Offensumme(n.offen)));
    AddiertGenau(w, n);
    VerteiltUmlauf(s);
    var v, n' := Verteilt(s), Tritt(w, n, Schliesse);
    assert n' == n.(sammel := v, bloecke := []);
    OhneBloecke(n');
    GesamtNichtnegativ(n.zustaende, s.geKumuliert);
    KeinAnspruch(n.zustaende, s.geKumuliert, v.geKumuliert);
  }

  lemma VerteiltUmlauf(s: Sammelblock)
    requires 0 <= s.neuFuerGE <= GRUNDBETRAG * s.menschen && 0 < s.menschen < MENSCHENGRENZE
    requires 0 <= s.geKumuliert && s.geKumuliert + s.neuFuerGE / s.menschen >= ZWEI63
    ensures Verteilt(s).geKumuliert < 0 && Verteilt(s).neuFuerGE < s.neuFuerGE && Verteilt(s).topf == s.topf
  {
    AnteilBegrenzt(s.neuFuerGE, s.menschen);
    var je := s.neuFuerGE / s.menschen;
    assert Quo(s.neuFuerGE, s.menschen) == je > 0;
    Produkt(je - 1, s.menschen);
    assert je * s.menschen == (je - 1) * s.menschen + s.menschen;
  }

  lemma {:induction false} KeinAnspruch(zs: seq<Zustand>, g: int, g': int)
    requires AlleOrdentlich(g, zs) && g' < 0
    ensures Gesamt(zs, Anspruch(g')) == 0
  {
    hide Ordentlich, Summe, Anspruch;
    if zs != [] {
      var n := |zs| - 1;
      KeinAnspruch(zs[..n], g, g');
      KeinerHatAnspruch(zs[n].konten, g, g');
    }
  }

  lemma {:induction false} KeinerHatAnspruch(m: map<string, Konto>, g: int, g': int)
    requires Ordentlich(g, m) && g' < 0
    ensures Summe(m, Anspruch(g')) == 0
    decreases |m|
  {
    if m != map[] {
      var a :| a in m;
      SummeOhne(m, Anspruch(g'), a);
      KeinerHatAnspruch(m - {a}, g, g');
    }
  }

  lemma SummenDerBilanz(n: Netz)
    requires Bilanz(n)
    ensures Geschoepft(n) == GRUNDBETRAG * AlleMenschen(n)
  {
  }

  lemma SchlussBilanz(w: Welt, n: Netz, s: Sammelblock)
    requires Bilanz(n) && |n.zustaende| == |n.letzter| && AlleOrdentlich(n.sammel.geKumuliert, n.zustaende)
    requires s == Addiert(w, n.sammel, Geldmengen(n), Menschenzahlen(n), n.bloecke, Wrap(Offensumme(n.offen)))
    requires s.geldmenge == Gesamt(n.zustaende, Guthaben) && s.menschen == AlleMenschen(n)
    requires s.offeneQuittung == Offensumme(n.offen) && s.topf == Topf(n) && s.neuFuerGE == Neu(n)
    requires s.geschoepft == Geschoepft(n) && s.ausgestiegen == Ausgestiegen(n)
    requires 0 <= s.geKumuliert == n.sammel.geKumuliert
    requires var v := Verteilt(s);
      && v == s.(geJeMensch := v.geJeMensch, neuFuerGE := v.neuFuerGE, geKumuliert := v.geKumuliert, grenze := v.grenze)
      && 0 <= v.geJeMensch && v.geKumuliert == s.geKumuliert + v.geJeMensch
      && v.neuFuerGE == s.neuFuerGE - v.geJeMensch * s.menschen
      && 0 <= v.neuFuerGE && (s.menschen > 0 ==> v.neuFuerGE < s.menschen)
      && v.grenze == (if s.menschen > 0 then 25 * (s.geldmenge / s.menschen) else 0)
    ensures Bilanz(Tritt(w, n, Schliesse)) && Abgerechnet(Tritt(w, n, Schliesse))
  {
    hide Summe, Gesamt, Ordentlich, AlleOrdentlich, Anspruch, Summiere, Offensumme, Verteilt, Addiert,
      Topf, Neu, Geschoepft, Ausgestiegen, Geldmengen, Menschenzahlen;
    var v, n' := Verteilt(s), Tritt(w, n, Schliesse);
    assert n' == n.(sammel := v, bloecke := []);
    OhneBloecke(n');
    GesamtAnspruchWaechst(n.zustaende, s.geKumuliert, v.geJeMensch);
    assert 0 <= Gesamt(n.zustaende, Anspruch(v.geKumuliert)) by {
      SpaeterOrdentlich(s.geKumuliert, v.geKumuliert, n.zustaende);
      GesamtNichtnegativ(n.zustaende, v.geKumuliert);
    }
  }

  /** No addition of the closing epoch wraps. */
  lemma AddiertGenau(w: Welt, n: Netz)
    requires Erhaltung(n) && ImRahmen(n)
    ensures var s := Addiert(w, n.sammel, Geldmengen(n), Menschenzahlen(n), n.bloecke, Wrap(Offensumme(n.offen)));
      && s.geldmenge == Gesamt(n.zustaende, Guthaben) && s.menschen == AlleMenschen(n)
      && s.offeneQuittung == Offensumme(n.offen) && s.topf == Topf(n) && s.neuFuerGE == Neu(n)
      && s.geschoepft == Geschoepft(n) && s.ausgestiegen == Ausgestiegen(n)
      && s.geKumuliert == n.sammel.geKumuliert && s.geJeMensch == 0 && s.grenze == 0
  {
    hide Summe, Gesamt, Ordentlich, AlleOrdentlich, Anspruch, Summiere, Angeschlossen, Zahlensumme, SammelHash,
      Bereich.Kopf, Offensumme;
    Schranken(n);
    ZahlensummeGesamt(n.zustaende, Guthaben, Geldmengen(n));
    ZahlensummeGesamt(n.zustaende, Geld.Kopf, Menschenzahlen(n));
  }

  lemma OhneBloecke(n: Netz)
    requires n.bloecke == []
    ensures Topf(n) == n.sammel.topf && Neu(n) == n.sammel.neuFuerGE
    ensures Geschoepft(n) == n.sammel.geschoepft && Ausgestiegen(n) == n.sammel.ausgestiegen
  {
  }

  lemma SpaeterOrdentlich(g: int, g': int, zs: seq<Zustand>)
    requires AlleOrdentlich(g, zs) && g <= g'
    ensures AlleOrdentlich(g', zs)
  {
  }

  /** What a closing epoch writes besides: its number, what it follows, and the heads of its blocks in
      order; without people it shares nothing out and sets no limit. */
  lemma SchlussSchreibt(w: Welt, n: Netz)
    requires |n.zustaende| == |n.letzter|
    ensures var s, s' := n.sammel, Tritt(w, n, Schliesse).sammel;
      && s'.epoche == (s.epoche + 1) % ZWEI64 && s'.vorher == w.sha(SammelU(s))
      && |s'.koepfe| == |n.bloecke|
      && (forall i :: 0 <= i < |n.bloecke| ==> s'.koepfe[i] == Bereich.Kopf(w, n.bloecke[i]))
      && (s'.menschen <= 0 ==> s'.geJeMensch == 0 && s'.grenze == 0 && s'.geKumuliert == s.geKumuliert)
      && Tritt(w, n, Schliesse) == n.(sammel := s', bloecke := [])
  {
    hide Gesamt, Summe, Summiere, Offensumme, Zahlensumme, Bereich.Kopf, Quo, Wrap;
  }

  // ---- runs -------------------------------------------------------------------------------------

  function Epochen(plan: seq<Aktion>): nat {
    if plan == [] then 0 else Epochen(plan[..|plan| - 1]) + (if plan[|plan| - 1].Schliesse? then 1 else 0)
  }

  /** No step makes people disappear. */
  lemma MenschenBleiben(w: Welt, n: Netz, a: Aktion)
    requires |n.zustaende| == |n.letzter| && Moeglich(w, n, a)
    requires forall i :: 0 <= i < |n.zustaende| ==> n.zustaende[i].Voll?
    ensures AlleMenschen(n) <= AlleMenschen(Tritt(w, n, a))
    ensures forall i :: 0 <= i < |n.zustaende| ==> Tritt(w, n, a).zustaende[i].Voll?
  {
    hide Summe, Gesamt, Probe, Summiere, Vorschlag;
    if a.Rechne? {
      NeueZaehlen(w, n, a.bereich, a.eingaben);
      GesamtNachTausch(n.zustaende, a.bereich, Probe(w, n, a.bereich, a.eingaben).lauf.z, Geld.Kopf);
    }
  }

  lemma {:induction false} AblaufVoll(w: Welt, s: nat, plan: seq<Aktion>)
    requires Ablauf(w, Start(s), plan).Some?
    ensures forall i :: 0 <= i < s ==> Ablauf(w, Start(s), plan).wert.zustaende[i].Voll?
  {
    hide Tritt, Moeglich;
    if plan != [] {
      AblaufVoll(w, s, plan[..|plan| - 1]);
      MenschenBleiben(w, Ablauf(w, Start(s), plan[..|plan| - 1]).wert, plan[|plan| - 1]);
    }
  }

  /** Every epoch that closes in the run can make its promise. */
  ghost predicate AlleZusagbar(w: Welt, n: Netz, plan: seq<Aktion>)
    requires |n.zustaende| == |n.letzter| && Ablauf(w, n, plan).Some?
  {
    plan != [] ==>
      && AlleZusagbar(w, n, plan[..|plan| - 1])
      && (plan[|plan| - 1].Schliesse? ==> Zusagbar(Ablauf(w, n, plan[..|plan| - 1]).wert))
  }

  lemma VorDemLetzten(w: Welt, s: nat, plan: seq<Aktion>)
    requires plan != [] && Ablauf(w, Start(s), plan).Some?
    ensures var vorher := Ablauf(w, Start(s), plan[..|plan| - 1]);
      && vorher.Some? && AlleMenschen(vorher.wert) <= AlleMenschen(Ablauf(w, Start(s), plan).wert)
      && Moeglich(w, vorher.wert, plan[|plan| - 1])
      && Ablauf(w, Start(s), plan).wert == Tritt(w, vorher.wert, plan[|plan| - 1])
  {
    hide Tritt, Moeglich, Gesamt;
    AblaufVoll(w, s, plan[..|plan| - 1]);
    MenschenBleiben(w, Ablauf(w, Start(s), plan[..|plan| - 1]).wert, plan[|plan| - 1]);
  }

  /** Every run keeps the books, whatever blocks the shards execute in whatever order, whichever
      receipts they redeem when and however many epochs close, as long as at most 921,414,866
      people have registered and each epoch could make its promise. */
  lemma {:induction false} AblaufErhaelt(w: Welt, s: nat, plan: seq<Aktion>)
    requires Ablauf(w, Start(s), plan).Some? && ImRahmen(Ablauf(w, Start(s), plan).wert)
    requires AlleZusagbar(w, Start(s), plan)
    ensures Erhaltung(Ablauf(w, Start(s), plan).wert)
    ensures plan != [] && plan[|plan| - 1].Schliesse? ==> Abgerechnet(Ablauf(w, Start(s), plan).wert)
    ensures Ablauf(w, Start(s), plan).wert.sammel.geKumuliert <= GRUNDBETRAG * Epochen(plan)
  {
    hide Tritt, Moeglich, Erhaltung, Abgerechnet, Gesamt, Zusagbar;
    if plan == [] {
      StartErhaelt(s);
    } else {
      var vorher, a := plan[..|plan| - 1], plan[|plan| - 1];
      var n := Ablauf(w, Start(s), vorher).wert;
      VorDemLetzten(w, s, plan);
      AblaufErhaelt(w, s, vorher);
      if a.Rechne? {
        BlockErhaelt(w, n, a);
        assert Tritt(w, n, a).sammel == n.sammel by { BlockLaesstSammel(w, n, a); }
      } else {
        SchlussErhaelt(w, n);
      }
    }
  }

  lemma BlockLaesstSammel(w: Welt, n: Netz, a: Aktion)
    requires a.Rechne? && |n.zustaende| == |n.letzter| && Moeglich(w, n, a)
    ensures Tritt(w, n, a).sammel == n.sammel
  {
    hide Probe, Ehrlich;
  }

  /** After none of the steps of the run are the books out of order. */
  ghost predicate DurchwegErhalten(w: Welt, n: Netz, plan: seq<Aktion>)
    requires |n.zustaende| == |n.letzter| && Ablauf(w, n, plan).Some?
  {
    Erhaltung(Ablauf(w, n, plan).wert) && (plan != [] ==> DurchwegErhalten(w, n, plan[..|plan| - 1]))
  }

  /** The books are in order all the way exactly if every closing epoch could make its promise. */
  lemma {:induction false} AblaufGenau(w: Welt, s: nat, plan: seq<Aktion>)
    requires Ablauf(w, Start(s), plan).Some? && ImRahmen(Ablauf(w, Start(s), plan).wert)
    ensures DurchwegErhalten(w, Start(s), plan) <==> AlleZusagbar(w, Start(s), plan)
  {
    hide Tritt, Moeglich, Erhaltung, Gesamt, Zusagbar;
    if plan == [] {
      StartErhaelt(s);
    } else {
      var vorher, a := plan[..|plan| - 1], plan[|plan| - 1];
      var n := Ablauf(w, Start(s), vorher).wert;
      VorDemLetzten(w, s, plan);
      AblaufGenau(w, s, vorher);
      if AlleZusagbar(w, Start(s), vorher) {
        AblaufErhaelt(w, s, vorher);
        if a.Rechne? { BlockErhaelt(w, n, a); } else { SchlussGenau(w, n); }
      }
    }
  }

  /** The first 9,223,372,036 epochs always can. */
  lemma {:induction false} EpochenReichen(w: Welt, s: nat, plan: seq<Aktion>)
    requires Ablauf(w, Start(s), plan).Some? && ImRahmen(Ablauf(w, Start(s), plan).wert)
    requires Epochen(plan) <= 9_223_372_036
    ensures AlleZusagbar(w, Start(s), plan)
  {
    hide Tritt, Moeglich, Erhaltung, Gesamt, Zusagbar;
    if plan != [] {
      var vorher := plan[..|plan| - 1];
      VorDemLetzten(w, s, plan);
      EpochenReichen(w, s, vorher);
      AblaufErhaelt(w, s, vorher);
      if plan[|plan| - 1].Schliesse? { FruehZusagbar(Ablauf(w, Start(s), vorher).wert, Epochen(vorher)); }
    }
  }

  lemma FruehZusagbar(n: Netz, epochen: nat)
    requires Erhaltung(n) && ImRahmen(n) && n.sammel.geKumuliert <= GRUNDBETRAG * epochen && epochen < 9_223_372_036
    ensures Zusagbar(n)
  {
    hide Summe, Gesamt, Ordentlich, AlleOrdentlich, Anspruch, Summiere, Angeschlossen, Offensumme, Topf, Neu,
      Geschoepft,
      Ausgestiegen, AlleMenschen;
    Schranken(n);
    if AlleMenschen(n) > 0 { AnteilBegrenzt(Neu(n), AlleMenschen(n)); }
  }

  /** Every block an honest, confirming committee publishes in such a run passes the cheap checks. */
  lemma EhrlicherBlockBesteht(w: Welt, n: Netz, a: Aktion, ausschuss: seq<string>)
    requires Erhaltung(n) && a.Rechne? && Moeglich(w, n, a) && ImRahmen(Tritt(w, n, a))
    requires BestaetigtVon(w, Ehrlich(w, n, a), ausschuss)
    ensures BilligPruefen(w, Ehrlich(w, n, a), n.letzter[a.bereich], ausschuss, RahmenVon(n)) == Angenommen
  {
    hide Summe, Gesamt, Ordentlich, AlleOrdentlich, Anspruch, Summiere, Betraege, Probe, S.Wurzel, Bilanz,
      EingabenID, BestaetigtVon;
    var i, e := a.bereich, a.eingaben;
    var l := Probe(w, n, i, e).lauf;
    assert AlleMenschen(n) + l.t.neueMenschen == AlleMenschen(Tritt(w, n, a)) by {
      assert n.zustaende[i].Voll? by { OrdentlichVoll(n, i); }
      NeueZaehlen(w, n, i, e);
      GesamtNachTausch(n.zustaende, i, l.z, Geld.Kopf);
    }
    BlockAusgeglichen(w, n, i, e);
    BlockGeldmenge(n, i, e, l, BlockVon(w, n, i, e));
    assert n.letzter[i].None? ==> Geldmenge(n.zustaende[i]) == 0 && Menschen(n.zustaende[i]) == 0 by { NeuLeer(); }
  }

  lemma OrdentlichVoll(n: Netz, i: nat)
    requires AlleOrdentlich(n.sammel.geKumuliert, n.zustaende) && i < |n.zustaende|
    ensures n.zustaende[i].Voll?
  {
  }

  lemma NeuLeer()
    ensures Geldmenge(NEU) == 0 && Menschen(NEU) == 0
  {
  }

  /** A network of one human, paid up to the largest promise there is, with one coin to share. */
  ghost function Randnetz(w: Welt, a: string): Netz {
    var k := Konto(GRUNDBETRAG - 1, true, 0, 0x7FFF_FFFF_FFFF_FFFF);
    var z := SetzeKonto(w, NEU, a, k);
    var s := ANFANG.(menschen := 1, topf := 1, neuFuerGE := 1, geKumuliert := k.geStand, geschoepft := GRUNDBETRAG);
    var b := BereichsBlock(0, 1, 0, NULL, S.Wurzel(z.baum), RahmenAus(s, 1), Eingaben([], [], []), [], NULLSUMME,
                           GRUNDBETRAG - 1, 1, map[], map[]);
    Netz([z], [Some(b)], multiset{}, s, [])
  }

  lemma RandSummen(w: Welt, a: string, f: Konto -> int)
    requires f(LEERES_KONTO) == 0
    ensures var z := Randnetz(w, a).zustaende[0];
      && z.Voll? && z.konten == map[a := Konto(GRUNDBETRAG - 1, true, 0, 0x7FFF_FFFF_FFFF_FFFF)]
      && Summe(z.konten, f) == Gesamt([z], f) == f(z.konten[a])
  {
    hide Summe, S.Setze;
    var k := Konto(GRUNDBETRAG - 1, true, 0, 0x7FFF_FFFF_FFFF_FFFF);
    SetzeSumme(w, NEU, a, k, f);
    SummeLeer(f);
    var z := Randnetz(w, a).zustaende[0];
    assert [z][..0] == [];
    assert Gesamt([z], f) == Gesamt([], f) + Summe(z.konten, f);
  }

  lemma RandnetzErhalten(w: Welt, a: string)
    ensures var n := Randnetz(w, a); Erhaltung(n) && ImRahmen(n) && AlleMenschen(n) == 1 && Neu(n) == 1
  {
    hide Summe, Gesamt, S.Setze, SetzeKonto;
    var n := Randnetz(w, a);
    RandSummen(w, a, Guthaben);
    RandSummen(w, a, Geld.Kopf);
    RandSummen(w, a, Anspruch(n.sammel.geKumuliert));
    assert n.zustaende == [n.zustaende[0]];
    OhneBloecke(n);
    assert Ordentlich(n.sammel.geKumuliert, n.zustaende[0].konten);
  }

  lemma RandSchluss(w: Welt, a: string)
    ensures var n' := Tritt(w, Randnetz(w, a), Schliesse);
      n'.sammel.geKumuliert == -ZWEI63 && n'.sammel.topf == 1 && n'.sammel.neuFuerGE == 0
  {
    hide Summe, S.Setze, SetzeKonto, SammelHash;
    var n := Randnetz(w, a);
    RandSummen(w, a, Geld.Kopf);
    var s := Addiert(w, n.sammel, Geldmengen(n), Menschenzahlen(n), [], 0);
    assert Menschenzahlen(n) == [1];
    assert Zahlensumme([1]) == 1 by { assert [1][..0] == []; }
    assert s.neuFuerGE == 1 && s.topf == 1 && s.menschen == 1 && s.geKumuliert == 0x7FFF_FFFF_FFFF_FFFF;
    assert Quo(1, 1) == 1;
  }

  lemma RandStand(w: Welt, a: string)
    ensures Randnetz(w, a).sammel.geKumuliert == 0x7FFF_FFFF_FFFF_FFFF && |Randnetz(w, a).zustaende| == 1
    ensures Inhalt(Randnetz(w, a).zustaende[0].konten, a).geStand == 0x7FFF_FFFF_FFFF_FFFF
  {
    RandSummen(w, a, Guthaben);
  }

  /** Its books are in order, and out of order once the epoch has closed: the pool is charged with
      the coin, and the human is owed nothing. */
  lemma Randumlauf(w: Welt, a: string)
    ensures var n := Randnetz(w, a); var n' := Tritt(w, n, Schliesse);
      && Erhaltung(n) && ImRahmen(n) && !Bilanz(n')
      && n'.sammel.geKumuliert < 0 && n'.sammel.topf - n'.sammel.neuFuerGE == 1
      && Nachtrag(RahmenVon(n'), Inhalt(n.zustaende[0].konten, a)) == 0
  {
    hide Summe, Gesamt, Erhaltung, ImRahmen, Bilanz, Tritt, Neu, Randnetz;
    var n := Randnetz(w, a);
    RandnetzErhalten(w, a);
    RandStand(w, a);
    SchlussGenau(w, n);
    RandSchluss(w, a);
  }
}
