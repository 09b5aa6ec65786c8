/**
 Money in a shard: how one input moves it, and that machine arithmetic stays exact
 as long as the network holds less than 921,414,867 basic amounts.
 */
module Geld {
  import opened Typen
  import opened Uebergang

  // ---- sums over accounts -------------------------------------------------------------

  function Guthaben(k: Konto): int { k.guthaben }

  function Kopf(k: Konto): int { if k.mensch then 1 else 0 }

  /** Basic income up to g that k has not been paid. */
  function Anspruch(g: int): Konto -> int {
    (k: Konto) => if k.mensch && k.geStand < g then g - k.geStand else 0
  }

  ghost function Summe(m: map<string, Konto>, f: Konto -> int): int
    decreases |m|
  {
    if m == map[] then 0 else var a :| a in m; f(m[a]) + Summe(m - {a}, f)
  }

  lemma SummeLeer(f: Konto -> int)
    ensures Summe(map[], f) == 0
  {
  }

  lemma {:induction false} SummeOhne(m: map<string, Konto>, f: Konto -> int, a: string)
    requires a in m
    ensures Summe(m, f) == f(m[a]) + Summe(m - {a}, f)
    decreases |m|
  {
    var b :| b in m && Summe(m, f) == f(m[b]) + Summe(m - {b}, f);
    if b != a {
      SummeOhne(m - {b}, f, a);
      SummeOhne(m - {a}, f, b);
      assert m - {a} - {b} == m - {b} - {a};
    }
  }

  lemma SummeMit(m: map<string, Konto>, f: Konto -> int, a: string, k: Konto)
    requires f(LEERES_KONTO) == 0
    ensures Summe(m[a := k], f) == Summe(m, f) - f(Inhalt(m, a)) + f(k)
    ensures Summe(m - {a}, f) == Summe(m, f) - f(Inhalt(m, a))
  {
    SummeOhne(m[a := k], f, a);
    assert m[a := k] - {a} == m - {a};
    if a in m { SummeOhne(m, f, a); } else { assert m - {a} == m; }
  }

  /** Writing one account changes any sum by the difference in that account. */
  lemma SetzeSumme(w: Welt, z: Zustand, a: string, k: Konto, f: Konto -> int)
    requires z.Voll? && f(LEERES_KONTO) == 0
    ensures Summe(SetzeKonto(w, z, a, k).konten, f) == Summe(z.konten, f) - f(Inhalt(z.konten, a)) + f(k)
  {
    SummeMit(z.konten, f, a, k);
  }

  lemma {:induction false} SummeMindestens(m: map<string, Konto>, f: Konto -> int, a: string)
    requires f(LEERES_KONTO) == 0 && forall b :: b in m ==> f(m[b]) >= 0
    ensures Summe(m, f) >= f(Inhalt(m, a)) && Summe(m, f) >= 0
    decreases |m|
  {
    if m != map[] {
      var b :| b in m && Summe(m, f) == f(m[b]) + Summe(m - {b}, f);
      SummeMindestens(m - {b}, f, a);
    }
  }

  // ---- fees ---------------------------------------------------------------------------

  /** From this balance on the wrapping check lets some amount through that exact arithmetic refuses. */
  const DECKUNGSGRENZE: int := 921_414_866_481_792_104

  /** The check the program makes, and the one it means. */
  predicate Durchgelassen(betrag: Int64, guthaben: Int64) { Wrap(betrag + Gebuehr(betrag)) <= guthaben }

  predicate Bezahlbar(betrag: int, guthaben: int) { betrag + betrag / 1000 <= guthaben }

  /** A wrapped fee is small, and not positive for the largest amounts, so that the sum does not wrap. */
  lemma GebuehrSchranken(betrag: Int64)
    requires betrag > 922_337_203_685_477_580
    ensures -922_337_203_685_477 <= Gebuehr(betrag) <= 922_337_203_685_477
    ensures Wrap(betrag + Gebuehr(betrag)) == betrag + Gebuehr(betrag)
  {
    var p := Wrap(betrag * 10);
    assert -ZWEI63 <= p < ZWEI63;
    if betrag >= ZWEI63 - 922_337_203_685_477_580 { assert p == betrag * 10 - 5 * ZWEI64; }
  }

  /** What passes below the limit pays the fee of one thousandth, and nothing wraps. */
  lemma DeckungExakt(betrag: Int64, guthaben: Int64)
    requires 0 < betrag && guthaben < DECKUNGSGRENZE
    ensures Durchgelassen(betrag, guthaben) <==> Bezahlbar(betrag, guthaben)
    ensures Bezahlbar(betrag, guthaben) ==>
      Gebuehr(betrag) == betrag / 1000 && Wrap(betrag + Gebuehr(betrag)) == betrag + betrag / 1000
  {
    if betrag <= 922_337_203_685_477_580 {
      assert Wrap(betrag * 10) == betrag * 10;
    } else {
      GebuehrSchranken(betrag);
    }
  }

  /** An amount that passes although fee and all it exceeds the balance. */
  lemma Fehlbetrag(guthaben: Int64) returns (betrag: Int64)
    requires guthaben >= DECKUNGSGRENZE
    ensures betrag > 0 && Durchgelassen(betrag, guthaben) && !Bezahlbar(betrag, guthaben)
  {
    if guthaben < 923_259_540_889_163_058 {
      betrag := 922_337_203_685_477_581;
      assert Wrap(betrag * 10) == betrag * 10 - ZWEI64;
    } else if guthaben < 923_259_540_889_163_478 {
      betrag := 923_000_000_000_000_000;
      assert Wrap(betrag * 10) == betrag * 10 - ZWEI64;
    } else {
      betrag := guthaben - 922_337_203_685_477;
      GebuehrSchranken(betrag);
    }
  }

  /** The check is exact for every amount exactly on balances below that limit. */
  lemma DeckungGenau(guthaben: Int64)
    ensures (forall betrag: Int64 :: betrag > 0 ==> (Durchgelassen(betrag, guthaben) <==> Bezahlbar(betrag, guthaben)))
      <==> guthaben < DECKUNGSGRENZE
  {
    if guthaben < DECKUNGSGRENZE {
      forall betrag: Int64 | betrag > 0 ensures Durchgelassen(betrag, guthaben) <==> Bezahlbar(betrag, guthaben) {
        DeckungExakt(betrag, guthaben);
      }
    } else {
      var betrag := Fehlbetrag(guthaben);
      assert Durchgelassen(betrag, guthaben) && !Bezahlbar(betrag, guthaben);
    }
  }

  /** From this many people on the money may reach that limit. */
  const MENSCHENGRENZE: int := 921_414_867

  // ---- one account -----------------------------------------------------------------------

  /** Not overdrawn, and paid no further than g. */
  predicate KontoOrdentlich(g: int, k: Konto) {
    0 <= k.guthaben && (k.mensch ==> 0 <= k.geStand <= g)
  }

  ghost predicate Ordentlich(g: int, konten: map<string, Konto>) {
    forall a :: a in konten ==> KontoOrdentlich(g, konten[a])
  }

  lemma NachtragExakt(r: Rahmen, k: Konto)
    requires KontoOrdentlich(r.geKumuliert, k)
    requires k.guthaben + Anspruch(r.geKumuliert)(k) < DECKUNGSGRENZE
    ensures var k' := Nachgetragen(r, k);
      && KontoOrdentlich(r.geKumuliert, k') && Anspruch(r.geKumuliert)(k') == 0 && k'.mensch == k.mensch
      && Nachtrag(r, k) == Anspruch(r.geKumuliert)(k) >= 0
      && k'.guthaben == k.guthaben + Nachtrag(r, k)
  {
  }

  /** Catching up, crediting and capping moves exactly the basic income, the credit and the excess. */
  lemma GutschriftExakt(r: Rahmen, k: Konto, betrag: Int64)
    requires KontoOrdentlich(r.geKumuliert, k) && 0 < betrag
    requires k.guthaben + Anspruch(r.geKumuliert)(k) + betrag < DECKUNGSGRENZE
    ensures var k1 := Nachgetragen(r, k);
      var k2 := k1.(guthaben := Wrap(k1.guthaben + betrag));
      var k3 := Gekappt(r, k2);
      && KontoOrdentlich(r.geKumuliert, k3) && Anspruch(r.geKumuliert)(k3) == 0 && k3.mensch == k.mensch
      && Nachtrag(r, k) == Anspruch(r.geKumuliert)(k) >= 0
      && 0 <= Kappung(r, k2) <= k.guthaben + Nachtrag(r, k) + betrag
      && k3.guthaben + Kappung(r, k2) == k.guthaben + Nachtrag(r, k) + betrag
  {
    NachtragExakt(r, k);
  }

  lemma KontoGesetzt(w: Welt, g: int, z: Zustand, a: string, k: Konto)
    requires z.Voll? && Ordentlich(g, z.konten) && KontoOrdentlich(g, k)
    ensures var z' := SetzeKonto(w, z, a, k); var alt := Inhalt(z.konten, a);
      && z'.Voll? && Ordentlich(g, z'.konten)
      && Summe(z'.konten, Guthaben) == Summe(z.konten, Guthaben) - alt.guthaben + k.guthaben
      && Summe(z'.konten, Kopf) == Summe(z.konten, Kopf) - Kopf(alt) + Kopf(k)
      && Summe(z'.konten, Anspruch(g)) == Summe(z.konten, Anspruch(g)) - Anspruch(g)(alt) + Anspruch(g)(k)
  {
    SetzeSumme(w, z, a, k, Guthaben);
    SetzeSumme(w, z, a, k, Kopf);
    SetzeSumme(w, z, a, k, Anspruch(g));
  }

  lemma KontoSchranken(g: int, konten: map<string, Konto>, a: string)
    requires Ordentlich(g, konten) && 0 <= g
    ensures var k := Inhalt(konten, a);
      && KontoOrdentlich(g, k)
      && 0 <= k.guthaben <= Summe(konten, Guthaben)
      && 0 <= Anspruch(g)(k) <= Summe(konten, Anspruch(g))
      && 0 <= Kopf(k) <= Summe(konten, Kopf)
  {
    SummeMindestens(konten, Guthaben, a);
    SummeMindestens(konten, Kopf, a);
    SummeMindestens(konten, Anspruch(g), a);
  }

  // ---- one block ----------------------------------------------------------------------------

  function Betraege(qs: seq<Quittung>): int {
    if qs == [] then 0 else Betraege(qs[..|qs| - 1]) + qs[|qs| - 1].betrag
  }

  /** Totals of the shard before the block, and the receipts it is to redeem. */
  datatype Stand = Stand(geld: int, anspruch: int, eingang: int, menschen: int)

  /** The books balance after part of a block; receipts worth `rest` are still to come. */
  ghost predicate Ausgeglichen(b: Block, s: Stand, l: Lauf, rest: int) {
    var g, t, konten := b.rahmen.geKumuliert, l.t, l.z.konten;
    && l.z.Voll? && 0 <= g && Ordentlich(g, konten) && 0 <= rest && 0 <= s.geld
    && 0 <= t.eingang && 0 <= t.ausgang && 0 <= t.gebuehren && 0 <= t.geAusgezahlt && 0 <= t.ausstiege
    && 0 <= t.neueMenschen
    && t.geschoepft == GRUNDBETRAG * t.neueMenschen
    && t.eingang + rest == s.eingang
    && t.geAusgezahlt + Summe(konten, Anspruch(g)) == s.anspruch
    && Summe(konten, Kopf) == s.menschen + t.neueMenschen
    && Summe(konten, Guthaben)
         == s.geld + t.eingang + t.geAusgezahlt + t.geschoepft - t.gebuehren - t.ausgang - t.ausstiege
    && t.ausgang == Betraege(l.ausgang)
    && forall i :: 0 <= i < |l.ausgang| ==> l.ausgang[i].vonBereich == b.bereich && l.ausgang[i].betrag > 0
  }

  /** Even with n registrations the network's money stays below the limit. */
  predicate Begrenzt(s: Stand, n: int) {
    s.geld + s.anspruch + s.eingang + GRUNDBETRAG * n < DECKUNGSGRENZE
  }

  function EingangsBetrag(e: Eingabe): int { if e.Einloesung? then e.q.betrag else 0 }

  lemma Nichtnegativ(g: int, konten: map<string, Konto>)
    requires Ordentlich(g, konten) && 0 <= g
    ensures Summe(konten, Guthaben) >= 0 && Summe(konten, Anspruch(g)) >= 0 && Summe(konten, Kopf) >= 0
  {
    KontoSchranken(g, konten, "");
  }

  lemma EinloesenBilanz(w: Welt, b: Block, s: Stand, l: Lauf, rest: int, q: Quittung)
    requires Ausgeglichen(b, s, l, rest) && Begrenzt(s, l.t.neueMenschen)
    requires Einloesen(w, b, l, q).Weiter? && q.betrag <= rest
    ensures Ausgeglichen(b, s, Einloesen(w, b, l, q).lauf, rest - q.betrag)
  {
    hide Summe, SetzeKonto, Ordentlich, Nachgetragen, Gekappt, Kappung, Nachtrag, Verbraucht, Anspruch, Betraege;
    var g, z := b.rahmen.geKumuliert, Verbrauche(w, l.z, q.id);
    var k := Inhalt(z.konten, q.an);
    assert z.Voll? && z.konten == l.z.konten;
    KontoSchranken(g, z.konten, q.an);
    Nichtnegativ(g, z.konten);
    GutschriftExakt(b.rahmen, k, q.betrag);
    var k1 := Nachgetragen(b.rahmen, k);
    KontoGesetzt(w, g, z, q.an, Gekappt(b.rahmen, k1.(guthaben := Wrap(k1.guthaben + q.betrag))));
  }

  lemma AnmeldenBilanz(w: Welt, b: Block, s: Stand, l: Lauf, rest: int, a: string)
    requires Ausgeglichen(b, s, l, rest) && Anmelden(w, b, l, a).Weiter?
    requires Begrenzt(s, Anmelden(w, b, l, a).lauf.t.neueMenschen)
    ensures Ausgeglichen(b, s, Anmelden(w, b, l, a).lauf, rest)
  {
    hide Summe, SetzeKonto, Ordentlich, Betraege;
    var g := b.rahmen.geKumuliert;
    var k := Inhalt(l.z.konten, a);
    KontoSchranken(g, l.z.konten, a);
    Nichtnegativ(g, l.z.konten);
    if !k.mensch {
      KontoGesetzt(w, g, l.z, a, k.(mensch := true, geStand := g, guthaben := Wrap(k.guthaben + GRUNDBETRAG)));
    }
  }

  /** The sender's side of an applied transfer: as if the amount left the system. */
  function Abgebucht(w: Welt, b: Block, l: Lauf, u: Ueberweisung): Lauf {
    var k := Inhalt(l.z.konten, u.von);
    l.(z := SetzeKonto(w, l.z, u.von, Belastet(u, Nachgetragen(b.rahmen, k))),
       t := l.t.(geAusgezahlt := Wrap(l.t.geAusgezahlt + Nachtrag(b.rahmen, k)),
                 gebuehren := Wrap(l.t.gebuehren + Gebuehr(u.betrag)),
                 ausstiege := Wrap(l.t.ausstiege + u.betrag)))
  }

  lemma AbgebuchtBilanz(w: Welt, b: Block, s: Stand, l: Lauf, rest: int, u: Ueberweisung)
    requires Ausgeglichen(b, s, l, rest) && Begrenzt(s, l.t.neueMenschen) && 0 < u.betrag
    requires Gedeckt(u, Nachgetragen(b.rahmen, Inhalt(l.z.konten, u.von)))
    ensures Ausgeglichen(b, s, Abgebucht(w, b, l, u), rest)
    ensures Abgebucht(w, b, l, u).t.ausstiege == l.t.ausstiege + u.betrag && u.betrag < DECKUNGSGRENZE
  {
    hide Summe, SetzeKonto, Ordentlich, Nachgetragen, Nachtrag, Anspruch, Gebuehr, Betraege;
    var g, k := b.rahmen.geKumuliert, Inhalt(l.z.konten, u.von);
    KontoSchranken(g, l.z.konten, u.von);
    Nichtnegativ(g, l.z.konten);
    NachtragExakt(b.rahmen, k);
    var von := Nachgetragen(b.rahmen, k);
    DeckungExakt(u.betrag, von.guthaben);
    var v := Belastet(u, von);
    assert v.guthaben == von.guthaben - u.betrag - Gebuehr(u.betrag) && Gebuehr(u.betrag) >= 0;
    AnspruchGleich(g, v, von);
    KontoGesetzt(w, g, l.z, u.von, v);
    assert 0 <= Summe(SetzeKonto(w, l.z, u.von, v).konten, Guthaben) by {
      Nichtnegativ(g, SetzeKonto(w, l.z, u.von, v).konten);
    }
  }

  /** Crediting what was booked out keeps the books balanced. */
  lemma ZugebuchtBilanz(w: Welt, b: Block, s: Stand, l: Lauf, rest: int, an: string, betrag: Int64)
    requires Ausgeglichen(b, s, l, rest) && Begrenzt(s, l.t.neueMenschen) && 0 < betrag <= l.t.ausstiege
    ensures Ausgeglichen(b, s, Gutschrift(w, b.rahmen, l.(t := l.t.(ausstiege := l.t.ausstiege - betrag)), an,
                                          Inhalt(l.z.konten, an), betrag), rest)
  {
    hide Summe, SetzeKonto, Ordentlich, Nachgetragen, Gekappt, Kappung, Nachtrag, Anspruch, Betraege;
    var g, k := b.rahmen.geKumuliert, Inhalt(l.z.konten, an);
    KontoSchranken(g, l.z.konten, an);
    Nichtnegativ(g, l.z.konten);
    GutschriftExakt(b.rahmen, k, betrag);
    var k1 := Nachgetragen(b.rahmen, k);
    KontoGesetzt(w, g, l.z, an, Gekappt(b.rahmen, k1.(guthaben := Wrap(k1.guthaben + betrag))));
  }

  /** Issuing a receipt for what was booked out keeps the books balanced. */
  lemma AusgestelltBilanz(b: Block, s: Stand, l: Lauf, rest: int, q: Quittung)
    requires Ausgeglichen(b, s, l, rest) && Begrenzt(s, l.t.neueMenschen)
    requires 0 < q.betrag <= l.t.ausstiege && q.vonBereich == b.bereich
    ensures Ausgeglichen(b, s, l.(ausgang := l.ausgang + [q],
      t := l.t.(ausstiege := l.t.ausstiege - q.betrag, ausgang := Wrap(l.t.ausgang + q.betrag))), rest)
  {
    hide Summe, Ordentlich, Anspruch;
    Nichtnegativ(b.rahmen.geKumuliert, l.z.konten);
    assert (l.ausgang + [q])[..|l.ausgang|] == l.ausgang;
  }

  lemma BelasteBilanz(w: Welt, b: Block, s: Stand, l: Lauf, rest: int, i: nat, u: Ueberweisung)
    requires Ausgeglichen(b, s, l, rest) && Begrenzt(s, l.t.neueMenschen) && 0 < u.betrag
    requires Belaste(w, b, l, i, u, Inhalt(l.z.konten, u.von)).Weiter?
    ensures Ausgeglichen(b, s, Belaste(w, b, l, i, u, Inhalt(l.z.konten, u.von)).lauf, rest)
  {
    hide Ausgeglichen, SetzeKonto, Nachgetragen, Nachtrag, Gebuehr, Gedeckt, Belastet, Gutschrift, Begrenzt;
    var k := Inhalt(l.z.konten, u.von);
    var von := Nachgetragen(b.rahmen, k);
    var ende := Belaste(w, b, l, i, u, k).lauf;
    AusgeglichenVoll(b, s, l, rest);
    if Gedeckt(u, von) {
      AbgebuchtBilanz(w, b, s, l, rest, u);
      var l' := Abgebucht(w, b, l, u);
      if u.ausstieg {
        NurBuecher(b, s, l', rest, ende);
      } else if w.bereichVon(u.an, b.rahmen.s) == b.bereich {
        var l3 := l'.(beruehrt := l'.beruehrt + {u.an});
        NurBuecher(b, s, l', rest, l3);
        ZugebuchtBilanz(w, b, s, l3, rest, u.an, u.betrag);
        AusgeglichenVoll(b, s, l3, rest);
        NurBuecher(b, s, Gutschrift(w, b.rahmen, l3.(t := l3.t.(ausstiege := l.t.ausstiege)), u.an,
                                    Inhalt(l3.z.konten, u.an), u.betrag), rest, ende);
      } else {
        var q := Quittung(w.sha(QuittungU(b.id, i)), b.bereich, w.bereichVon(u.an, b.rahmen.s), u.an, u.betrag);
        AusgestelltBilanz(b, s, l', rest, q);
        NurBuecher(b, s, l'.(ausgang := l'.ausgang + [q],
          t := l'.t.(ausstiege := l'.t.ausstiege - q.betrag, ausgang := Wrap(l'.t.ausgang + q.betrag))), rest, ende);
      }
    } else {
      NurNachgetragen(w, b, s, l, rest, u.von);
      NurBuecher(b, s, l.(z := SetzeKonto(w, l.z, u.von, von),
                          t := l.t.(geAusgezahlt := Wrap(l.t.geAusgezahlt + Nachtrag(b.rahmen, k)))), rest, ende);
    }
  }

  lemma AusgeglichenVoll(b: Block, s: Stand, l: Lauf, rest: int)
    requires Ausgeglichen(b, s, l, rest)
    ensures l.z.Voll? && 0 <= l.t.ausstiege
  {
  }

  /** The balance looks at state, sums and receipts only. */
  lemma NurBuecher(b: Block, s: Stand, l: Lauf, rest: int, l': Lauf)
    requires Ausgeglichen(b, s, l, rest) && l'.z == l.z && l'.t == l.t && l'.ausgang == l.ausgang
    ensures Ausgeglichen(b, s, l', rest)
  {
  }

  lemma NurNachgetragen(w: Welt, b: Block, s: Stand, l: Lauf, rest: int, a: string)
    requires Ausgeglichen(b, s, l, rest) && Begrenzt(s, l.t.neueMenschen)
    ensures var k := Inhalt(l.z.konten, a);
      Ausgeglichen(b, s, l.(z := SetzeKonto(w, l.z, a, Nachgetragen(b.rahmen, k)),
                            t := l.t.(geAusgezahlt := Wrap(l.t.geAusgezahlt + Nachtrag(b.rahmen, k)))), rest)
  {
    hide Summe, SetzeKonto, Ordentlich, Nachgetragen, Nachtrag, Anspruch, Betraege;
    var g, k := b.rahmen.geKumuliert, Inhalt(l.z.konten, a);
    KontoSchranken(g, l.z.konten, a);
    Nichtnegativ(g, l.z.konten);
    NachtragExakt(b.rahmen, k);
    KontoGesetzt(w, g, l.z, a, Nachgetragen(b.rahmen, k));
  }

  lemma AnspruchGleich(g: int, k: Konto, k': Konto)
    requires k.mensch == k'.mensch && k.geStand == k'.geStand
    ensures Anspruch(g)(k) == Anspruch(g)(k')
  {
  }

  lemma TueBilanz(w: Welt, b: Block, s: Stand, l: Lauf, rest: int, e: Eingabe)
    requires Ausgeglichen(b, s, l, rest) && Tue(w, b, l, e).Weiter? && EingangsBetrag(e) <= rest
    requires Begrenzt(s, Tue(w, b, l, e).lauf.t.neueMenschen)
    ensures Ausgeglichen(b, s, Tue(w, b, l, e).lauf, rest - EingangsBetrag(e))
    ensures l.t.neueMenschen <= Tue(w, b, l, e).lauf.t.neueMenschen
  {
    hide Summe, SetzeKonto, Ordentlich, Betraege, Nachgetragen, Gedeckt, Belastet, Gebuehr, Gekappt, Kappung, Nachtrag;
    match e
    case Einloesung(q) => EinloesenBilanz(w, b, s, l, rest, q);
    case Anmeldung(a) => AnmeldenBilanz(w, b, s, l, rest, a);
    case Zahlung(i, u) =>
      if !VorabUebersprungen(w, u) {
        BelasteBilanz(w, b, s, l.(beruehrt := l.beruehrt + {u.von}), rest, i, u);
      }
  }

  lemma {:induction false} FolgeZaehltMenschen(w: Welt, b: Block, l: Lauf, plan: seq<Eingabe>)
    ensures l.t.neueMenschen <= Folge(w, b, l, plan).lauf.t.neueMenschen
    decreases |plan|
  {
    hide SetzeKonto, Verbrauche, Nachgetragen, Gedeckt, Belastet, Gebuehr, Gekappt, Kappung, Nachtrag;
    if plan != [] && Tue(w, b, l, plan[0]).Weiter? {
      FolgeZaehltMenschen(w, b, Tue(w, b, l, plan[0]).lauf, plan[1..]);
    }
  }

  /** Receipts still to be redeemed. */
  function Eingangsrest(plan: seq<Eingabe>): int {
    if plan == [] then 0 else EingangsBetrag(plan[0]) + Eingangsrest(plan[1..])
  }

  lemma {:induction false} FolgeBilanz(w: Welt, b: Block, s: Stand, l: Lauf, plan: seq<Eingabe>)
    requires Ausgeglichen(b, s, l, Eingangsrest(plan)) && Folge(w, b, l, plan).Weiter?
    requires Begrenzt(s, Folge(w, b, l, plan).lauf.t.neueMenschen)
    requires forall e :: e in plan ==> EingangsBetrag(e) >= 0
    ensures Ausgeglichen(b, s, Folge(w, b, l, plan).lauf, 0)
    decreases |plan|
  {
    hide Tue, Ausgeglichen;
    if plan != [] {
      var l' := Tue(w, b, l, plan[0]).lauf;
      FolgeZaehltMenschen(w, b, l', plan[1..]);
      EingangsrestNichtnegativ(plan[1..]);
      TueBilanz(w, b, s, l, Eingangsrest(plan), plan[0]);
      FolgeBilanz(w, b, s, l', plan[1..]);
    }
  }

  lemma {:induction false} EingangsrestNichtnegativ(plan: seq<Eingabe>)
    requires forall e :: e in plan ==> EingangsBetrag(e) >= 0
    ensures Eingangsrest(plan) >= 0
  {
    if plan != [] { EingangsrestNichtnegativ(plan[1..]); }
  }

  /** Whatever the amounts, the people counted are the people registered. */
  lemma TueZaehltKoepfe(w: Welt, b: Block, l: Lauf, e: Eingabe)
    requires l.z.Voll?
    ensures var l' := Tue(w, b, l, e).lauf;
      l'.z.Voll? && Summe(l'.z.konten, Kopf) - l'.t.neueMenschen == Summe(l.z.konten, Kopf) - l.t.neueMenschen
  {
    hide Summe, SetzeKonto, Gedeckt, Gebuehr, Kappung, Nachtrag, Gutschrift, Nachgetragen, Gekappt, Belastet,
      VorabUebersprungen;
    forall l: Lauf, a, betrag | l.z.Voll?
      ensures var l' := Gutschrift(w, b.rahmen, l, a, Inhalt(l.z.konten, a), betrag);
        l'.z.Voll? && l'.t.neueMenschen == l.t.neueMenschen && Summe(l'.z.konten, Kopf) == Summe(l.z.konten, Kopf)
    {
      GutschriftZaehlt(w, b.rahmen, l, a, betrag);
    }
    match e
    case Einloesung(q) =>
    case Anmeldung(a) =>
      var k := Inhalt(l.z.konten, a);
      KopfGesetzt(w, l.z, a,
        k.(mensch := true, geStand := b.rahmen.geKumuliert, guthaben := Wrap(k.guthaben + GRUNDBETRAG)));
    case Zahlung(_, u) =>
      var von := Nachgetragen(b.rahmen, Inhalt(l.z.konten, u.von));
      NachtragMensch(b.rahmen, Inhalt(l.z.konten, u.von), u);
      KopfGesetzt(w, l.z, u.von, von);
      KopfGesetzt(w, l.z, u.von, Belastet(u, von));
  }

  lemma NachtragMensch(r: Rahmen, k: Konto, u: Ueberweisung)
    ensures Nachgetragen(r, k).mensch == k.mensch == Belastet(u, Nachgetragen(r, k)).mensch
  {
  }

  lemma GutschriftZaehlt(w: Welt, r: Rahmen, l: Lauf, a: string, betrag: Int64)
    requires l.z.Voll?
    ensures var l' := Gutschrift(w, r, l, a, Inhalt(l.z.konten, a), betrag);
      l'.z.Voll? && l'.t.neueMenschen == l.t.neueMenschen && Summe(l'.z.konten, Kopf) == Summe(l.z.konten, Kopf)
  {
    hide Summe, SetzeKonto;
    var k1 := Nachgetragen(r, Inhalt(l.z.konten, a));
    KopfGesetzt(w, l.z, a, Gekappt(r, k1.(guthaben := Wrap(k1.guthaben + betrag))));
  }

  lemma KopfGesetzt(w: Welt, z: Zustand, a: string, k: Konto)
    requires z.Voll?
    ensures SetzeKonto(w, z, a, k).Voll?
    ensures Summe(SetzeKonto(w, z, a, k).konten, Kopf) == Summe(z.konten, Kopf) - Kopf(Inhalt(z.konten, a)) + Kopf(k)
  {
    SetzeSumme(w, z, a, k, Kopf);
  }

  lemma {:induction false} FolgeZaehltKoepfe(w: Welt, b: Block, l: Lauf, plan: seq<Eingabe>)
    requires l.z.Voll?
    ensures var l' := Folge(w, b, l, plan).lauf;
      l'.z.Voll? && Summe(l'.z.konten, Kopf) - l'.t.neueMenschen == Summe(l.z.konten, Kopf) - l.t.neueMenschen
    decreases |plan|
  {
    hide Tue, Summe;
    if plan != [] {
      TueZaehltKoepfe(w, b, l, plan[0]);
      if Tue(w, b, l, plan[0]).Weiter? { FolgeZaehltKoepfe(w, b, Tue(w, b, l, plan[0]).lauf, plan[1..]); }
    }
  }
}
