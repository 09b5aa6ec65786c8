/**
 What each input does to a full state, told address by address: when it aborts, which transfers
 are applied, what every account holds afterwards, and what is booked and issued.
 */
module Wirkung {
  import opened Typen
  import opened Uebergang
  import opened Geld
  import E = Einmal

  // ---- one account --------------------------------------------------------------------------

  /** Balance and owed basic income together, as a whole number. */
  function Aufgelaufen(r: Rahmen, k: Konto): int { k.guthaben + Anspruch(r.geKumuliert)(k) }

  function BezahltBis(r: Rahmen, k: Konto): Int64 {
    if k.mensch && k.geStand < r.geKumuliert then r.geKumuliert else k.geStand
  }

  /** What a human may not keep of a balance. */
  function Ueberschuss(r: Rahmen, mensch: bool, guthaben: int): int {
    if mensch && 0 < r.grenze < guthaben then guthaben - r.grenze else 0
  }

  /** What a transfer takes from its sender: the amount and a thousandth, in machine arithmetic. */
  function Kosten(betrag: Int64): Int64 { Wrap(betrag + Quo(Wrap(10 * betrag), 10_000)) }

  /** k after a credit. */
  function Bereichert(r: Rahmen, k: Konto, betrag: int): Konto {
    var g := Wrap(Aufgelaufen(r, k) + betrag);
    Konto(g - Ueberschuss(r, k.mensch, g), k.mensch, k.nonce, BezahltBis(r, k))
  }

  /** k after sending, or after a transfer that was looked at and not applied. */
  function Gezahlt(r: Rahmen, k: Konto, kosten: int, angewandt: bool): Konto {
    Konto(Wrap(Aufgelaufen(r, k) - kosten), k.mensch, if angewandt then (k.nonce + 1) % ZWEI64 else k.nonce,
          BezahltBis(r, k))
  }

  lemma WrapIn(x: int, y: int)
    ensures Wrap(Wrap(x) + y) == Wrap(x + y)
  {
  }

  /** Writing one account of a full state writes no other. */
  lemma Gesetzt(w: Welt, z: Zustand, a: string, k: Konto)
    requires z.Voll?
    ensures var z' := SetzeKonto(w, z, a, k);
      z'.Voll? && forall a' :: Inhalt(z'.konten, a') == if a' == a then k else Inhalt(z.konten, a')
  {
    hide SetzeKonto, Inhalt;
    InhaltNachSetze(w, z, a, k, a);
    forall a' ensures Inhalt(SetzeKonto(w, z, a, k).konten, a') == if a' == a then k else Inhalt(z.konten, a') {
      InhaltNachSetze(w, z, a, k, a');
    }
  }

  lemma NachgetragenIst(r: Rahmen, k: Konto)
    ensures Nachgetragen(r, k) == k.(guthaben := Wrap(Aufgelaufen(r, k)), geStand := BezahltBis(r, k))
    ensures Nachtrag(r, k) == Wrap(Anspruch(r.geKumuliert)(k))
  {
    hide Wrap;
    WrapIn(Anspruch(r.geKumuliert)(k), k.guthaben);
  }

  lemma KreditWirkt(r: Rahmen, k: Konto, betrag: Int64)
    ensures var k1 := Nachgetragen(r, k); var k2 := k1.(guthaben := Wrap(k1.guthaben + betrag));
      && Gekappt(r, k2) == Bereichert(r, k, betrag)
      && Kappung(r, k2) == Wrap(Ueberschuss(r, k.mensch, Wrap(Aufgelaufen(r, k) + betrag)))
  {
    hide Wrap, Aufgelaufen, Nachgetragen;
    NachgetragenIst(r, k);
    WrapIn(Aufgelaufen(r, k), betrag);
  }

  /** Catching up, crediting and capping: one account changes, and the totals by what was paid and capped. */
  lemma GutschriftWirkt(w: Welt, r: Rahmen, l: Lauf, a: string, betrag: Int64)
    requires l.z.Voll?
    ensures var k := Inhalt(l.z.konten, a); var l' := Gutschrift(w, r, l, a, k, betrag);
      && l'.z.Voll? && l' == l.(z := l'.z, t := l'.t)
      && l'.t == l.t.(geAusgezahlt := Wrap(l.t.geAusgezahlt + Anspruch(r.geKumuliert)(k)),
           gebuehren := Wrap(l.t.gebuehren + Ueberschuss(r, k.mensch, Wrap(Aufgelaufen(r, k) + betrag))))
      && forall a' :: Inhalt(l'.z.konten, a') == if a' == a then Bereichert(r, k, betrag) else Inhalt(l.z.konten, a')
  {
    hide SetzeKonto, Inhalt, Bereichert, Gekappt, Kappung, Wrap, Aufgelaufen, Ueberschuss, Nachgetragen;
    var k := Inhalt(l.z.konten, a);
    KreditWirkt(r, k, betrag);
    Gesetzt(w, l.z, a, Bereichert(r, k, betrag));
    WrapIn(Anspruch(r.geKumuliert)(k), l.t.geAusgezahlt);
    WrapIn(Ueberschuss(r, k.mensch, Wrap(Aufgelaufen(r, k) + betrag)), l.t.gebuehren);
  }

  /** A credit leaves no human above a positive limit; what he may not keep is booked as fees. */
  lemma ObergrenzeHaelt(w: Welt, r: Rahmen, l: Lauf, a: string, betrag: Int64)
    requires l.z.Voll?
    ensures var k := Inhalt(l.z.konten, a); var l' := Gutschrift(w, r, l, a, k, betrag);
      var g, g' := Wrap(k.guthaben + (if k.mensch && k.geStand < r.geKumuliert then r.geKumuliert - k.geStand else 0)
                        + betrag), Inhalt(l'.z.konten, a).guthaben;
      && (k.mensch && r.grenze > 0 ==> g' <= r.grenze)
      && l'.t.gebuehren == Wrap(l.t.gebuehren + g - g')
      && (g' != g ==> k.mensch && g > r.grenze > 0 && g' == r.grenze)
  {
    hide SetzeKonto, Gutschrift, Inhalt;
    GutschriftWirkt(w, r, l, a, betrag);
  }

  // ---- receipts and registrations ----------------------------------------------------------------

  /** A receipt is redeemed exactly if it is meant for this shard, worth something and new; its
      recipient alone is credited. */
  lemma EinloesungWirkt(w: Welt, b: Block, l: Lauf, q: Quittung)
    requires l.z.Voll?
    ensures var s := Tue(w, b, l, Einloesung(q)); var k := Inhalt(l.z.konten, q.an);
      && (s.Weiter? <==> q.nachBereich == b.bereich && w.bereichVon(q.an, b.rahmen.s) == b.bereich && q.betrag > 0
                         && !Eingeloest(w, l.z.baum, q.id))
      && (s.Weiter? ==>
            && s.lauf == l.(z := s.lauf.z, t := s.lauf.t, beruehrt := l.beruehrt + {q.an},
                            quittungen := l.quittungen + [q.id])
            && s.lauf.z.Voll?
            && s.lauf.t == l.t.(eingang := Wrap(l.t.eingang + q.betrag),
                 geAusgezahlt := Wrap(l.t.geAusgezahlt + Anspruch(b.rahmen.geKumuliert)(k)),
                 gebuehren := Wrap(l.t.gebuehren
                   + Ueberschuss(b.rahmen, k.mensch, Wrap(Aufgelaufen(b.rahmen, k) + q.betrag))))
            && forall a :: Inhalt(s.lauf.z.konten, a)
                 == if a == q.an then Bereichert(b.rahmen, k, q.betrag) else Inhalt(l.z.konten, a))
  {
    hide Gutschrift, Bereichert, Aufgelaufen, Ueberschuss, Eingeloest;
    E.VerbraucheVoll(w, l.z, q.id);
    var l2 := l.(quittungen := l.quittungen + [q.id], z := Verbrauche(w, l.z, q.id), beruehrt := l.beruehrt + {q.an});
    GutschriftWirkt(w, b.rahmen, l2, q.an, q.betrag);
  }

  /** A registration makes its account human, paid up to now and one basic amount richer, unless it was human. */
  lemma AnmeldungWirkt(w: Welt, b: Block, l: Lauf, addr: string)
    requires l.z.Voll?
    ensures var s := Tue(w, b, l, Anmeldung(addr)); var k := Inhalt(l.z.konten, addr);
      && (s.Weiter? <==> w.bereichVon(addr, b.rahmen.s) == b.bereich)
      && (s.Weiter? ==>
            && s.lauf == l.(z := s.lauf.z, t := s.lauf.t, beruehrt := l.beruehrt + {addr})
            && s.lauf.z.Voll?
            && s.lauf.t == (if k.mensch then l.t
                 else l.t.(geschoepft := Wrap(l.t.geschoepft + 1_000_000_000), neueMenschen := l.t.neueMenschen + 1))
            && forall a :: Inhalt(s.lauf.z.konten, a)
                 == if a == addr && !k.mensch
                    then Konto(Wrap(k.guthaben + 1_000_000_000), true, k.nonce, b.rahmen.geKumuliert)
                    else Inhalt(l.z.konten, a))
  {
    hide SetzeKonto;
    var k := Inhalt(l.z.konten, addr);
    var k1 := k.(mensch := true, geStand := b.rahmen.geKumuliert, guthaben := Wrap(k.guthaben + GRUNDBETRAG));
    forall a { InhaltNachSetze(w, l.z, addr, k1, a); }
  }

  // ---- transfers ---------------------------------------------------------------------------------------

  /** Worth looking at: an amount, two parties or an exit, and the sender's signature. */
  predicate Ernst(w: Welt, u: Ueberweisung) {
    u.betrag > 0 && u.von != u.an && (u.ausstieg || u.an != "") && w.signiert(u)
  }

  /** A transfer that a sender with account k makes. */
  predicate Anwendbar(w: Welt, r: Rahmen, u: Ueberweisung, k: Konto) {
    Ernst(w, u) && u.nonce == k.nonce && Kosten(u.betrag) <= Wrap(Aufgelaufen(r, k))
  }

  /** A transfer to an account of the same shard. */
  predicate ImBereich(w: Welt, b: Block, u: Ueberweisung) {
    !u.ausstieg && w.bereichVon(u.an, b.rahmen.s) == b.bereich
  }

  /** What address a holds after transfer u. */
  function Danach(w: Welt, b: Block, konten: map<string, Konto>, u: Ueberweisung, a: string): Konto {
    var k, ja := Inhalt(konten, a), Anwendbar(w, b.rahmen, u, Inhalt(konten, u.von));
    if a == u.von && Ernst(w, u) then Gezahlt(b.rahmen, k, if ja then Kosten(u.betrag) else 0, ja)
    else if a == u.an && ja && ImBereich(w, b, u) then Bereichert(b.rahmen, k, u.betrag)
    else k
  }

  /** The totals after transfer u. */
  function Summen(w: Welt, b: Block, l: Lauf, u: Ueberweisung): Teilsumme {
    var von, an := Inhalt(l.z.konten, u.von), Inhalt(l.z.konten, u.an);
    var ja, hier, g := Anwendbar(w, b.rahmen, u, von), ImBereich(w, b, u), b.rahmen.geKumuliert;
    var voll := Wrap(Aufgelaufen(b.rahmen, an) + u.betrag);
    l.t.(geAusgezahlt := Wrap(l.t.geAusgezahlt + (if Ernst(w, u) then Anspruch(g)(von) else 0)
                              + (if ja && hier then Anspruch(g)(an) else 0)),
         gebuehren := Wrap(l.t.gebuehren + (if ja then Kosten(u.betrag) - u.betrag else 0)
                           + (if ja && hier then Ueberschuss(b.rahmen, an.mensch, voll) else 0)),
         ausstiege := if ja && u.ausstieg then Wrap(l.t.ausstiege + u.betrag) else l.t.ausstiege,
         ausgang := if ja && !u.ausstieg && !hier then Wrap(l.t.ausgang + u.betrag) else l.t.ausgang)
  }

  /** The receipts after transfer u. */
  function Quittungen(w: Welt, b: Block, l: Lauf, i: nat, u: Ueberweisung): seq<Quittung> {
    if Anwendbar(w, b.rahmen, u, Inhalt(l.z.konten, u.von)) && !u.ausstieg && !ImBereich(w, b, u)
    then l.ausgang + [Quittung(w.sha(QuittungU(b.id, i)), b.bereich, w.bereichVon(u.an, b.rahmen.s), u.an, u.betrag)]
    else l.ausgang
  }

  lemma KostenSind(betrag: Int64)
    ensures Wrap(betrag + Gebuehr(betrag)) == Kosten(betrag)
  {
    hide Quo, Wrap;
  }

  /** The sender's account, and whether the transfer is covered, in the program's steps. */
  lemma AbsenderWirkt(r: Rahmen, u: Ueberweisung, k: Konto)
    ensures Nachgetragen(r, k) == Gezahlt(r, k, 0, false)
    ensures Belastet(u, Nachgetragen(r, k)) == Gezahlt(r, k, Kosten(u.betrag), true)
    ensures Gedeckt(u, Nachgetragen(r, k)) <==> u.nonce == k.nonce && Kosten(u.betrag) <= Wrap(Aufgelaufen(r, k))
  {
    hide Wrap, Aufgelaufen, Nachgetragen, Kosten, Gebuehr;
    NachgetragenIst(r, k);
    KostenSind(u.betrag);
    var c: int := Kosten(u.betrag);
    WrapIn(Aufgelaufen(r, k), -c);
  }

  lemma SummenWirken(r: Rahmen, x: Int64, y: Int64, u: Ueberweisung, k: Konto)
    ensures Wrap(x + Nachtrag(r, k)) == Wrap(x + Anspruch(r.geKumuliert)(k))
    ensures Wrap(y + Gebuehr(u.betrag)) == Wrap(y + Kosten(u.betrag) - u.betrag)
  {
    hide Wrap, Kosten, Gebuehr, Nachtrag;
    NachgetragenIst(r, k);
    KostenSind(u.betrag);
    WrapIn(Anspruch(r.geKumuliert)(k), x);
    WrapIn(u.betrag + Gebuehr(u.betrag), y - u.betrag);
  }

  /** The sender's side of an applied transfer. */
  function Gebucht(w: Welt, b: Block, l: Lauf, u: Ueberweisung): Lauf {
    var k := Inhalt(l.z.konten, u.von);
    l.(z := SetzeKonto(w, l.z, u.von, Gezahlt(b.rahmen, k, Kosten(u.betrag), true)),
       beruehrt := l.beruehrt + {u.von},
       t := l.t.(geAusgezahlt := Wrap(l.t.geAusgezahlt + Anspruch(b.rahmen.geKumuliert)(k)),
                 gebuehren := Wrap(l.t.gebuehren + Kosten(u.betrag) - u.betrag)))
  }

  /** A transfer worth looking at, step by step. */
  lemma ErnsteZahlung(w: Welt, b: Block, l: Lauf, i: nat, u: Ueberweisung)
    requires l.z.Voll? && w.bereichVon(u.von, b.rahmen.s) == b.bereich && Ernst(w, u)
    ensures var k, s, l2 := Inhalt(l.z.konten, u.von), Tue(w, b, l, Zahlung(i, u)), Gebucht(w, b, l, u);
      var ziel := w.bereichVon(u.an, b.rahmen.s); var ja := Anwendbar(w, b.rahmen, u, k);
      s == if !ja then Entscheide(l2.(z := SetzeKonto(w, l.z, u.von, Gezahlt(b.rahmen, k, 0, false)),
                                      t := l2.t.(gebuehren := l.t.gebuehren)), false)
        else if u.ausstieg then Entscheide(l2.(t := l2.t.(ausstiege := Wrap(l.t.ausstiege + u.betrag))), true)
        else if ziel == b.bereich then
          Entscheide(Gutschrift(w, b.rahmen, l2.(beruehrt := l2.beruehrt + {u.an}), u.an,
                                Inhalt(l2.z.konten, u.an), u.betrag), true)
        else
          var q := Quittung(w.sha(QuittungU(b.id, i)), b.bereich, ziel, u.an, u.betrag);
          Entscheide(l2.(ausgang := l.ausgang + [q], t := l2.t.(ausgang := Wrap(l.t.ausgang + u.betrag))), true)
  {
    hide SetzeKonto, Gutschrift, Gezahlt, Wrap, Kosten, Gebuehr, Nachgetragen, Nachtrag, Belastet, Aufgelaufen,
      Gedeckt, Inhalt, Anspruch;
    var k := Inhalt(l.z.konten, u.von);
    AbsenderWirkt(b.rahmen, u, k);
    SummenWirken(b.rahmen, l.t.geAusgezahlt, l.t.gebuehren, u, k);
    Gesetzt(w, l.z, u.von, Gezahlt(b.rahmen, k, Kosten(u.betrag), true));
  }

  lemma SummenNach(w: Welt, b: Block, l: Lauf, i: nat, u: Ueberweisung)
    requires l.z.Voll? && w.bereichVon(u.von, b.rahmen.s) == b.bereich && Ernst(w, u)
    ensures var s := Tue(w, b, l, Zahlung(i, u));
      s.Weiter? && s.lauf.z.Voll? && s.lauf.t == Summen(w, b, l, u)
  {
    hide Tue, SetzeKonto, Gutschrift, Bereichert, Gezahlt, Wrap, Kosten, Ueberschuss, Aufgelaufen, Inhalt, Anspruch,
      Ernst;
    var k, an, l2 := Inhalt(l.z.konten, u.von), Inhalt(l.z.konten, u.an), Gebucht(w, b, l, u);
    ErnsteZahlung(w, b, l, i, u);
    Gesetzt(w, l.z, u.von, Gezahlt(b.rahmen, k, 0, false));
    Gesetzt(w, l.z, u.von, Gezahlt(b.rahmen, k, Kosten(u.betrag), true));
    GutschriftWirkt(w, b.rahmen, l2.(beruehrt := l2.beruehrt + {u.an}), u.an, u.betrag);
    assert Ernst(w, u) ==> u.von != u.an by { Zwei(w, u); }
    WrapIn(l.t.geAusgezahlt + Anspruch(b.rahmen.geKumuliert)(k), Anspruch(b.rahmen.geKumuliert)(an));
    WrapIn(l.t.gebuehren + Kosten(u.betrag) - u.betrag,
           Ueberschuss(b.rahmen, an.mensch, Wrap(Aufgelaufen(b.rahmen, an) + u.betrag)));
  }

  lemma Zwei(w: Welt, u: Ueberweisung)
    requires Ernst(w, u)
    ensures u.von != u.an
  {
  }

  lemma KontenNach(w: Welt, b: Block, l: Lauf, i: nat, u: Ueberweisung)
    requires l.z.Voll? && w.bereichVon(u.von, b.rahmen.s) == b.bereich && Ernst(w, u)
    ensures var s := Tue(w, b, l, Zahlung(i, u));
      && s.lauf.quittungen == l.quittungen
      && s.lauf.angewandt == l.angewandt + [Anwendbar(w, b.rahmen, u, Inhalt(l.z.konten, u.von))]
      && s.lauf.ausgang == Quittungen(w, b, l, i, u)
      && forall a :: Inhalt(s.lauf.z.konten, a) == Danach(w, b, l.z.konten, u, a)
  {
    hide Tue, SetzeKonto, Gutschrift, Bereichert, Gezahlt, Wrap, Kosten, Ueberschuss, Aufgelaufen, Inhalt, Anspruch;
    var k, l2 := Inhalt(l.z.konten, u.von), Gebucht(w, b, l, u);
    ErnsteZahlung(w, b, l, i, u);
    Gesetzt(w, l.z, u.von, Gezahlt(b.rahmen, k, 0, false));
    Gesetzt(w, l.z, u.von, Gezahlt(b.rahmen, k, Kosten(u.betrag), true));
    GutschriftWirkt(w, b.rahmen, l2.(beruehrt := l2.beruehrt + {u.an}), u.an, u.betrag);
  }

  /** A transfer of an account of this shard never aborts. It is applied exactly if it is signed,
      has an amount and two parties, carries the sender's nonce and is covered; then the sender alone
      pays amount and fee, and the recipient named alone receives the amount, here or by receipt. */
  lemma ZahlungWirkt(w: Welt, b: Block, l: Lauf, i: nat, u: Ueberweisung)
    requires l.z.Voll?
    ensures var s := Tue(w, b, l, Zahlung(i, u));
      && (s.Weiter? <==> w.bereichVon(u.von, b.rahmen.s) == b.bereich)
      && (s.Weiter? ==>
            && s.lauf.z.Voll? && s.lauf.quittungen == l.quittungen
            && s.lauf.angewandt == l.angewandt + [Anwendbar(w, b.rahmen, u, Inhalt(l.z.konten, u.von))]
            && s.lauf.t == Summen(w, b, l, u) && s.lauf.ausgang == Quittungen(w, b, l, i, u)
            && forall a :: Inhalt(s.lauf.z.konten, a) == Danach(w, b, l.z.konten, u, a))
  {
    hide SetzeKonto, Gutschrift, Bereichert, Gezahlt, Wrap, Kosten, Ueberschuss, Aufgelaufen, Inhalt, Anspruch;
    if w.bereichVon(u.von, b.rahmen.s) == b.bereich && Ernst(w, u) {
      hide Tue, Summen, Quittungen, Danach, Ernst, Anwendbar;
      SummenNach(w, b, l, i, u);
      KontenNach(w, b, l, i, u);
    }
  }
}
