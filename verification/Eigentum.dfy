/**
 Who pays: the transfers a block, a chain or a run applies are just the signed and covered ones,
 and nobody's balance falls but by his own signature or the wealth limit.
 */
module Eigentum {
  import opened Typen
  import opened Uebergang
  import opened Geld
  import opened Wirkung
  import opened Netz
  import B = Bereich
  import E = Einmal
  import N = Netzlauf

  // ---- what a block decides ----------------------------------------------------------------------

  /** Receipts first, then registrations, then transfers, each in order. */
  lemma PlanStelle(e: Eingaben, k: nat)
    requires k < |Plan(e)|
    ensures |Plan(e)| == |e.eingang| + |e.registrierung| + |e.ueberweisungen|
    ensures var i := k - |e.eingang|; var j := i - |e.registrierung|;
      Plan(e)[k] == if i < 0 then Einloesung(e.eingang[k])
                    else if j < 0 then Anmeldung(e.registrierung[i])
                    else Zahlung(j, e.ueberweisungen[j])
  {
  }

  lemma {:induction false} FolgeAnhang(w: Welt, b: Block, l: Lauf, plan: seq<Eingabe>, x: Eingabe)
    ensures var s := Folge(w, b, l, plan);
      Folge(w, b, l, plan + [x]) == if s.Weiter? then Tue(w, b, s.lauf, x) else s
    decreases |plan|
  {
    hide Tue;
    if plan == [] {
      assert (plan + [x])[1..] == [];
    } else {
      assert (plan + [x])[1..] == plan[1..] + [x];
      if Tue(w, b, l, plan[0]).Weiter? { FolgeAnhang(w, b, Tue(w, b, l, plan[0]).lauf, plan[1..], x); }
    }
  }

  lemma {:induction false} FolgeBleibtVoll(w: Welt, b: Block, l: Lauf, plan: seq<Eingabe>)
    requires l.z.Voll? && Folge(w, b, l, plan).Weiter?
    ensures Folge(w, b, l, plan).lauf.z.Voll?
    ensures (forall x :: x in plan ==> !x.Zahlung?) ==> Folge(w, b, l, plan).lauf.angewandt == l.angewandt
    decreases |plan|
  {
    hide Tue, Inhalt, Eingeloest, Bereichert, Anspruch, Aufgelaufen, Ueberschuss, Anwendbar, ImBereich, Danach;
    if plan != [] {
      TueBleibtVoll(w, b, l, plan[0]);
      FolgeBleibtVoll(w, b, Tue(w, b, l, plan[0]).lauf, plan[1..]);
    }
  }

  lemma TueBleibtVoll(w: Welt, b: Block, l: Lauf, x: Eingabe)
    requires l.z.Voll? && Tue(w, b, l, x).Weiter?
    ensures Tue(w, b, l, x).lauf.z.Voll?
    ensures !x.Zahlung? ==> Tue(w, b, l, x).lauf.angewandt == l.angewandt
  {
    hide Tue, Inhalt, Eingeloest, Bereichert, Anspruch, Aufgelaufen, Ueberschuss, Anwendbar, ImBereich, Danach, Summen,
      Quittungen;
    match x
    case Einloesung(q) => EinloesungWirkt(w, b, l, q);
    case Anmeldung(a) => AnmeldungWirkt(w, b, l, a);
    case Zahlung(i, u) => ZahlungWirkt(w, b, l, i, u);
  }

  /** The inputs of e up to transfer i. */
  function Bis(e: Eingaben, i: nat): Eingaben
    requires i <= |e.ueberweisungen|
  {
    e.(ueberweisungen := e.ueberweisungen[..i])
  }

  /** A block that runs to its end decides each of its transfers, on the state that all its receipts,
      all its registrations and the transfers before it have left. */
  lemma {:induction false} BlockEntscheidet(w: Welt, b: Block, z: Zustand, e: Eingaben, i: nat)
    requires z.Voll? && Ausfuehren(w, b, z, e).Weiter? && i < |e.ueberweisungen|
    ensures |Ausfuehren(w, b, z, e).lauf.angewandt| == |e.ueberweisungen|
    ensures var davor, u := Ausfuehren(w, b, z, Bis(e, i)), e.ueberweisungen[i];
      && davor.Weiter? && davor.lauf.z.Voll? && w.bereichVon(u.von, b.rahmen.s) == b.bereich
      && Ausfuehren(w, b, z, e).lauf.angewandt[i]
           == Anwendbar(w, b.rahmen, u, Inhalt(davor.lauf.z.konten, u.von))
    decreases |e.ueberweisungen|
  {
    hide Tue, Folge, Plan, Anwendbar, Inhalt, ImBereich, Danach, Summen, Quittungen;
    var n := |e.ueberweisungen| - 1;
    var u, davor := e.ueberweisungen[n], Ausfuehren(w, b, z, Bis(e, n));
    PlanEinsMehr(e);
    FolgeAnhang(w, b, Anfang(z), Plan(Bis(e, n)), Zahlung(n, u));
    FolgeBleibtVoll(w, b, Anfang(z), Plan(Bis(e, n)));
    ZahlungWirkt(w, b, davor.lauf, n, u);
    if n == 0 {
      OhneZahlungen(Bis(e, 0));
    } else {
      BlockEntscheidet(w, b, z, Bis(e, n), if i < n then i else 0);
      if i < n { assert Bis(Bis(e, n), i) == Bis(e, i); }
    }
  }

  lemma PlanEinsMehr(e: Eingaben)
    requires e.ueberweisungen != []
    ensures var n := |e.ueberweisungen| - 1; Plan(e) == Plan(Bis(e, n)) + [Zahlung(n, e.ueberweisungen[n])]
  {
  }

  lemma OhneZahlungen(e: Eingaben)
    requires e.ueberweisungen == []
    ensures forall x :: x in Plan(e) ==> !x.Zahlung?
  {
  }

  // ---- only what is signed -------------------------------------------------------------------------

  /** One step applies a transfer only if that is applicable. */
  lemma AngewandtAnwendbar(w: Welt, b: Block, l: Lauf, x: Eingabe)
    requires l.z.Voll? && Tue(w, b, l, x).Weiter?
    ensures E.Angewandt(Tue(w, b, l, x).lauf, x)
      <==> x.Zahlung? && Anwendbar(w, b.rahmen, x.u, Inhalt(l.z.konten, x.u.von))
  {
    hide Tue, Inhalt, Anwendbar, ImBereich, Danach, Summen, Quittungen;
    if x.Zahlung? { ZahlungWirkt(w, b, l, x.i, x.u); }
  }

  /** Whatever a list of inputs applies is signed, has an amount and two parties. */
  lemma {:induction false} FolgeBuchtSigniertes(w: Welt, b: Block, l: Lauf, plan: seq<Eingabe>, u: Ueberweisung)
    requires l.z.Voll? && u in E.Gebucht(w, b, l, plan)
    ensures u.betrag > 0 && u.von != u.an && (u.ausstieg || u.an != "") && w.signiert(u)
    decreases |plan|
  {
    hide Tue, E.Angewandt;
    var s := Tue(w, b, l, plan[0]);
    TueBleibtVoll(w, b, l, plan[0]);
    AngewandtAnwendbar(w, b, l, plan[0]);
    if u in E.Gebucht(w, b, s.lauf, plan[1..]) { FolgeBuchtSigniertes(w, b, s.lauf, plan[1..], u); }
  }

  /** So it is over a whole chain of blocks. */
  lemma {:induction false} KetteBuchtSigniertes(w: Welt, z: Zustand, ks: seq<E.Glied>, u: Ueberweisung)
    requires z.Voll? && E.Kette(w, z, ks).Some? && u in E.Kette(w, z, ks).wert.gebucht
    ensures u.betrag > 0 && u.von != u.an && (u.ausstieg || u.an != "") && w.signiert(u)
  {
    hide Folge, Plan, E.Gebucht;
    var n := |ks| - 1;
    E.KetteNoncenFortlaufend(w, z, ks[..n], u.von);
    var v := E.Kette(w, z, ks[..n]).wert;
    if u in v.gebucht {
      KetteBuchtSigniertes(w, z, ks[..n], u);
    } else {
      FolgeBuchtSigniertes(w, ks[n].block, Anfang(v.z), Plan(ks[n].eingaben), u);
    }
  }

  // ---- in whole numbers ------------------------------------------------------------------------------

  /** A balance and what is owed to it stay clear of every wrap. */
  predicate Massvoll(r: Rahmen, k: Konto) {
    0 <= r.geKumuliert && KontoOrdentlich(r.geKumuliert, k) && Aufgelaufen(r, k) < DECKUNGSGRENZE
  }

  /** While the books are in order and the money below the limit, every account is of that kind. */
  lemma AlleMassvoll(b: Block, s: Stand, l: Lauf, rest: int, a: string)
    requires Ausgeglichen(b, s, l, rest) && Begrenzt(s, l.t.neueMenschen)
    ensures Massvoll(b.rahmen, Inhalt(l.z.konten, a))
  {
    hide Summe, Ordentlich, Anspruch, Betraege, Inhalt;
    KontoSchranken(b.rahmen.geKumuliert, l.z.konten, a);
    Nichtnegativ(b.rahmen.geKumuliert, l.z.konten);
  }

  /** Then a transfer is covered exactly if the amount and a thousandth of it are at most what the
      sender has and is owed, and the sender pays just that. */
  lemma AnwendbarExakt(w: Welt, r: Rahmen, u: Ueberweisung, k: Konto)
    requires Massvoll(r, k)
    ensures Anwendbar(w, r, u, k) <==>
      && u.betrag > 0 && u.von != u.an && (u.ausstieg || u.an != "") && w.signiert(u)
      && u.nonce == k.nonce
      && u.betrag + u.betrag / 1000
           <= k.guthaben + (if k.mensch && k.geStand < r.geKumuliert then r.geKumuliert - k.geStand else 0)
    ensures Anwendbar(w, r, u, k) ==>
      && Gezahlt(r, k, Kosten(u.betrag), true).guthaben == Aufgelaufen(r, k) - u.betrag - u.betrag / 1000
      && u.betrag < DECKUNGSGRENZE
  {
    hide Quo, Gebuehr, Kosten;
    KostenSind(u.betrag);
    if u.betrag > 0 { DeckungExakt(u.betrag, Aufgelaufen(r, k)); }
  }

  /** A credit adds just its amount and what was owed, up to the limit. */
  lemma BereichertExakt(r: Rahmen, k: Konto, betrag: Int64)
    requires Massvoll(r, k) && 0 < betrag < DECKUNGSGRENZE
    ensures Bereichert(r, k, betrag).guthaben ==
      if k.mensch && 0 < r.grenze < Aufgelaufen(r, k) + betrag then r.grenze else Aufgelaufen(r, k) + betrag
  {
  }

  // ---- nobody pays without signing ----------------------------------------------------------------------

  /** What is left at least of a balance that is only ever capped. */
  function Boden(r: Rahmen, guthaben: int): int { if 0 < r.grenze < guthaben then r.grenze else guthaben }

  lemma TueMindertNicht(w: Welt, b: Block, s: Stand, l: Lauf, rest: int, x: Eingabe, a: string)
    requires Ausgeglichen(b, s, l, rest) && Begrenzt(s, l.t.neueMenschen)
    requires Tue(w, b, l, x).Weiter? && EingangsBetrag(x) <= rest
    requires !(E.Angewandt(Tue(w, b, l, x).lauf, x) && x.u.von == a)
    ensures Inhalt(Tue(w, b, l, x).lauf.z.konten, a).guthaben >= Boden(b.rahmen, Inhalt(l.z.konten, a).guthaben)
  {
    hide Tue, Inhalt, Eingeloest, Anwendbar, Summen, Quittungen, Bereichert, Massvoll, Begrenzt, Ausgeglichen,
      Ueberschuss;
    AlleMassvoll(b, s, l, rest, a);
    AusgeglichenVoll(b, s, l, rest);
    AngewandtAnwendbar(w, b, l, x);
    var k := Inhalt(l.z.konten, a);
    match x
    case Einloesung(q) =>
      EinloesungWirkt(w, b, l, q);
      EingangBegrenzt(b, s, l, rest);
      if a == q.an { BereichertMindestens(b.rahmen, k, q.betrag); }
    case Anmeldung(addr) =>
      AnmeldungWirkt(w, b, l, addr);
      GrundbetragPasst(b.rahmen, k);
    case Zahlung(i, u) =>
      ZahlungWirkt(w, b, l, i, u);
      AlleMassvoll(b, s, l, rest, u.von);
      AnwendbarExakt(w, b.rahmen, u, Inhalt(l.z.konten, u.von));
      NachtragMindestens(b.rahmen, k);
      if a == u.an && Anwendbar(w, b.rahmen, u, Inhalt(l.z.konten, u.von)) {
        BereichertMindestens(b.rahmen, k, u.betrag);
      }
  }

  lemma EingangBegrenzt(b: Block, s: Stand, l: Lauf, rest: int)
    requires Ausgeglichen(b, s, l, rest) && Begrenzt(s, l.t.neueMenschen)
    ensures rest < DECKUNGSGRENZE
  {
    hide Summe, Ordentlich, Betraege;
    Nichtnegativ(b.rahmen.geKumuliert, l.z.konten);
  }

  lemma BereichertMindestens(r: Rahmen, k: Konto, betrag: Int64)
    requires Massvoll(r, k) && 0 < betrag < DECKUNGSGRENZE
    ensures Bereichert(r, k, betrag).guthaben >= Boden(r, k.guthaben)
  {
    hide Bereichert;
    BereichertExakt(r, k, betrag);
  }

  lemma NachtragMindestens(r: Rahmen, k: Konto)
    requires Massvoll(r, k)
    ensures Gezahlt(r, k, 0, false).guthaben >= Boden(r, k.guthaben)
  {
  }

  lemma GrundbetragPasst(r: Rahmen, k: Konto)
    requires Massvoll(r, k)
    ensures Wrap(k.guthaben + 1_000_000_000) >= k.guthaben >= Boden(r, k.guthaben)
  {
  }

  /** While the books are in order, a list of inputs that applies no transfer of a takes nothing
      from a but what exceeds the limit. */
  lemma {:induction false} FolgeMindertNicht(w: Welt, b: Block, s: Stand, l: Lauf, plan: seq<Eingabe>, a: string)
    requires Ausgeglichen(b, s, l, Eingangsrest(plan)) && Folge(w, b, l, plan).Weiter?
    requires Begrenzt(s, Folge(w, b, l, plan).lauf.t.neueMenschen)
    requires forall x :: x in plan ==> EingangsBetrag(x) >= 0
    requires forall u :: u in E.Gebucht(w, b, l, plan) ==> u.von != a
    ensures Inhalt(Folge(w, b, l, plan).lauf.z.konten, a).guthaben >= Boden(b.rahmen, Inhalt(l.z.konten, a).guthaben)
    decreases |plan|
  {
    hide Tue, Ausgeglichen, Inhalt, E.Angewandt;
    if plan != [] {
      var l' := Tue(w, b, l, plan[0]).lauf;
      FolgeZaehltMenschen(w, b, l', plan[1..]);
      EingangsrestNichtnegativ(plan[1..]);
      TueBilanz(w, b, s, l, Eingangsrest(plan), plan[0]);
      E.AngewandtZahlung(l', plan[0]);
      TueMindertNicht(w, b, s, l, Eingangsrest(plan), plan[0], a);
      FolgeMindertNicht(w, b, s, l', plan[1..], a);
    }
  }

  /** The transfers that block step a applies. */
  function Gebuchte(w: Welt, n: Netz, a: Aktion): seq<Ueberweisung>
    requires a.Rechne? && a.bereich < |n.zustaende| == |n.letzter|
  {
    E.Gebucht(w, BlockVon(w, n, a.bereich, a.eingaben), Anfang(n.zustaende[a.bereich]), Plan(a.eingaben))
  }

  /** With the books in order, an account whose balance a block lowers, other than to the wealth
      limit, has signed a transfer that the block applied. */
  lemma NurMitUnterschrift(w: Welt, n: Netz, a: Aktion, addr: string)
    requires Erhaltung(n) && a.Rechne? && Moeglich(w, n, a) && ImRahmen(Tritt(w, n, a))
    requires var k, k' := Inhalt(n.zustaende[a.bereich].konten, addr),
                          Inhalt(Tritt(w, n, a).zustaende[a.bereich].konten, addr);
      k'.guthaben < k.guthaben && !(0 < n.sammel.grenze <= k'.guthaben)
    ensures exists u :: u in Gebuchte(w, n, a) && u.von == addr && w.signiert(u)
  {
    hide Summe, Gesamt, Ordentlich, AlleOrdentlich, Anspruch, Ausgeglichen, Begrenzt, Folge, Plan, E.Gebucht, Bilanz,
      Angeschlossen, Ehrlich, Inhalt;
    var i, e, b := a.bereich, a.eingaben, BlockVon(w, n, a.bereich, a.eingaben);
    var us := E.Gebucht(w, b, Anfang(n.zustaende[i]), Plan(e));
    BlockStellt(w, n, a);
    BlockBeginnt(w, n, i, e);
    AusgeglichenVoll(b, StandVon(n, i, e), Anfang(n.zustaende[i]), Eingangsrest(Plan(e)));
    if forall u :: u in us ==> u.von != addr {
      FolgeMindertNicht(w, b, StandVon(n, i, e), Anfang(n.zustaende[i]), Plan(e), addr);
    } else {
      var u :| u in us && u.von == addr;
      FolgeBuchtSigniertes(w, b, Anfang(n.zustaende[i]), Plan(e), u);
    }
  }

  /** So it is in the last step of every run that keeps its books, hence in every step of it. */
  lemma LaufNurMitUnterschrift(w: Welt, s: nat, plan: seq<Aktion>, addr: string)
    requires plan != [] && plan[|plan| - 1].Rechne? && Ablauf(w, Start(s), plan).Some?
    requires ImRahmen(Ablauf(w, Start(s), plan).wert) && N.AlleZusagbar(w, Start(s), plan)
    ensures var k := |plan| - 1; var a, vorher := plan[k], Ablauf(w, Start(s), plan[..k]);
      && vorher.Some? && a.bereich < |vorher.wert.zustaende| == |vorher.wert.letzter|
      && var x, x' := Inhalt(vorher.wert.zustaende[a.bereich].konten, addr).guthaben,
                      Inhalt(Ablauf(w, Start(s), plan).wert.zustaende[a.bereich].konten, addr).guthaben;
         x <= x' || 0 < vorher.wert.sammel.grenze <= x'
         || exists u :: u in Gebuchte(w, vorher.wert, a) && u.von == addr && w.signiert(u)
  {
    hide Tritt, Erhaltung, Gesamt, N.Zusagbar, Gebuchte, Inhalt, N.Abgerechnet;
    var k := |plan| - 1;
    N.VorDemLetzten(w, s, plan);
    var n := Ablauf(w, Start(s), plan[..k]).wert;
    N.AblaufErhaelt(w, s, plan[..k]);
    var x, x' := Inhalt(n.zustaende[plan[k].bereich].konten, addr).guthaben,
                 Inhalt(Tritt(w, n, plan[k]).zustaende[plan[k].bereich].konten, addr).guthaben;
    if x' < x && !(0 < n.sammel.grenze <= x') { NurMitUnterschrift(w, n, plan[k], addr); }
  }
}
