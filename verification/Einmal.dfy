/**
 Exactly once over a chain of blocks: no receipt is credited twice, no transfer is
 applied twice, no receipt id is issued twice.
 */
module Einmal {
  import opened Typen
  import opened Uebergang
  import opened Gleichlauf
  import opened Sofort
  import opened Bereich
  import S = Smt

  // ---- receipts ---------------------------------------------------------------------------

  ghost predicate PlanBenannt(plan: seq<Eingabe>, U: iset<Urbild>) {
    forall x :: x in plan ==> EingabeBenannt(x, U)
  }

  /** What is redeemed at the end is what was redeemed at the start and what was read since, each once. */
  ghost predicate Eingangsbuch(w: Welt, U: iset<Urbild>, z0: Zustand, z: Zustand, ids: seq<Hash>) {
    && z0.Voll? && z.Voll?
    && Verschieden(ids)
    && (forall id :: id in ids ==> QuittungSchluesselU(id) in U && !Eingeloest(w, z0.baum, id))
    && (forall id :: QuittungSchluesselU(id) in U ==>
          (Eingeloest(w, z.baum, id) <==> Eingeloest(w, z0.baum, id) || id in ids))
  }

  lemma BuchNachSetze(w: Welt, U: iset<Urbild>, z0: Zustand, z: Zustand, ids: seq<Hash>, a: string, k: Konto)
    requires Sicher(w, U) && Eingangsbuch(w, U, z0, z, ids) && KontoSchluesselU(a) in U
    ensures Eingangsbuch(w, U, z0, SetzeKonto(w, z, a, k), ids)
  {
    hide S.Setze, Eingeloest, Sicher, SetzeKonto;
    InhaltNachSetze(w, z, a, k, a);
    forall id | QuittungSchluesselU(id) in U
      ensures Eingeloest(w, SetzeKonto(w, z, a, k).baum, id) <==> Eingeloest(w, z0.baum, id) || id in ids
    {
      EinloesestandBleibt(w, U, z, a, k, id);
    }
  }

  lemma BuchNachVerbrauche(w: Welt, U: iset<Urbild>, z0: Zustand, z: Zustand, ids: seq<Hash>, id: Hash)
    requires Sicher(w, U) && Eingangsbuch(w, U, z0, z, ids)
    requires QuittungSchluesselU(id) in U && !Eingeloest(w, z.baum, id)
    ensures Eingangsbuch(w, U, z0, Verbrauche(w, z, id), ids + [id])
  {
    hide S.Setze, Eingeloest, Sicher, Verbrauche;
    VerbraucheVoll(w, z, id);
    forall x | QuittungSchluesselU(x) in U
      ensures Eingeloest(w, Verbrauche(w, z, id).baum, x) <==> Eingeloest(w, z0.baum, x) || x in ids + [id]
    {
      EinloesestandNach(w, U, z, id, x);
    }
  }

  lemma VerbraucheVoll(w: Welt, z: Zustand, id: Hash)
    requires z.Voll?
    ensures Verbrauche(w, z, id).Voll? && Verbrauche(w, z, id).konten == z.konten
    ensures Verbraucht(w, z, id) == Some(Eingeloest(w, z.baum, id))
  {
  }

  lemma GutschriftBuch(w: Welt, U: iset<Urbild>, z0: Zustand, r: Rahmen, l: Lauf, a: string, k: Konto, betrag: Int64)
    requires Sicher(w, U) && Eingangsbuch(w, U, z0, l.z, l.quittungen) && KontoSchluesselU(a) in U
    ensures var l' := Gutschrift(w, r, l, a, k, betrag);
      Eingangsbuch(w, U, z0, l'.z, l'.quittungen)
  {
    hide Eingangsbuch, SetzeKonto, Sicher, Nachgetragen, Gekappt;
    var k1 := Nachgetragen(r, k);
    BuchNachSetze(w, U, z0, l.z, l.quittungen, a, Gekappt(r, k1.(guthaben := Wrap(k1.guthaben + betrag))));
  }

  /** A step that succeeds redeems what it reads and nothing else. */
  lemma TueBuch(w: Welt, U: iset<Urbild>, b: Block, z0: Zustand, l: Lauf, x: Eingabe)
    requires Sicher(w, U) && Eingangsbuch(w, U, z0, l.z, l.quittungen)
    requires EingabeBenannt(x, U) && Tue(w, b, l, x).Weiter?
    ensures var l' := Tue(w, b, l, x).lauf; Eingangsbuch(w, U, z0, l'.z, l'.quittungen)
  {
    hide Eingangsbuch, SetzeKonto, Sicher, Verbrauche, Verbraucht, Gutschrift, Nachgetragen, Belastet, Gedeckt,
      LiesKonto,
      Nachtrag, Gebuehr, Eingeloest;
    BuchVoll(w, U, z0, l.z, l.quittungen);
    forall l: Lauf, a, k, betrag | Eingangsbuch(w, U, z0, l.z, l.quittungen) && KontoSchluesselU(a) in U
      ensures var l' := Gutschrift(w, b.rahmen, l, a, k, betrag); Eingangsbuch(w, U, z0, l'.z, l'.quittungen)
    {
      GutschriftBuch(w, U, z0, b.rahmen, l, a, k, betrag);
    }
    match x
    case Einloesung(q) =>
      VerbraucheVoll(w, l.z, q.id);
      BuchNachVerbrauche(w, U, z0, l.z, l.quittungen, q.id);
    case Anmeldung(a) =>
      forall k ensures Eingangsbuch(w, U, z0, SetzeKonto(w, l.z, a, k), l.quittungen) {
        BuchNachSetze(w, U, z0, l.z, l.quittungen, a, k);
      }
    case Zahlung(_, u) =>
      forall k ensures Eingangsbuch(w, U, z0, SetzeKonto(w, l.z, u.von, k), l.quittungen) {
        BuchNachSetze(w, U, z0, l.z, l.quittungen, u.von, k);
      }
  }

  lemma BuchVoll(w: Welt, U: iset<Urbild>, z0: Zustand, z: Zustand, ids: seq<Hash>)
    requires Eingangsbuch(w, U, z0, z, ids)
    ensures z.Voll?
  {
  }

  lemma {:induction false} FolgeBuch(w: Welt, U: iset<Urbild>, b: Block, z0: Zustand, l: Lauf, plan: seq<Eingabe>)
    requires Sicher(w, U) && Eingangsbuch(w, U, z0, l.z, l.quittungen) && PlanBenannt(plan, U)
    requires Folge(w, b, l, plan).Weiter?
    ensures var l' := Folge(w, b, l, plan).lauf; Eingangsbuch(w, U, z0, l'.z, l'.quittungen)
    decreases |plan|
  {
    hide Eingangsbuch, Tue, EingabeBenannt;
    if plan != [] {
      TueBuch(w, U, b, z0, l, plan[0]);
      FolgeBuch(w, U, b, z0, Tue(w, b, l, plan[0]).lauf, plan[1..]);
    }
  }

  // ---- transfers ------------------------------------------------------------------------------

  /** The transfers a run applies, in order. */
  function Gebucht(w: Welt, b: Block, l: Lauf, plan: seq<Eingabe>): seq<Ueberweisung>
    decreases |plan|
  {
    if plan == [] then []
    else match Tue(w, b, l, plan[0])
      case Abbruch(_, _) => []
      case Weiter(l') =>
        (if Angewandt(l', plan[0]) then [plan[0].u] else []) + Gebucht(w, b, l', plan[1..])
  }

  /** The decision recorded last applies transfer x. */
  predicate Angewandt(l: Lauf, x: Eingabe) {
    x.Zahlung? && l.angewandt != [] && l.angewandt[|l.angewandt| - 1]
  }

  function Von(a: string, us: seq<Ueberweisung>): seq<Ueberweisung> {
    if us == [] then [] else Von(a, us[..|us| - 1]) + (if us[|us| - 1].von == a then [us[|us| - 1]] else [])
  }

  lemma {:induction false} VonVerkettet(a: string, us: seq<Ueberweisung>, vs: seq<Ueberweisung>)
    ensures Von(a, us + vs) == Von(a, us) + Von(a, vs)
  {
    if vs == [] {
      assert us + vs == us;
    } else {
      VonVerkettet(a, us, vs[..|vs| - 1]);
      assert (us + vs)[..|us + vs| - 1] == us + vs[..|vs| - 1];
    }
  }

  function Rund(x: int): int { x % ZWEI64 }

  /** The transfers us of one account carry consecutive nonces from n0 up to n, modulo 2^64. */
  ghost predicate Fortlaufend(us: seq<Ueberweisung>, n0: int, n: int) {
    && n == Rund(n0 + |us|)
    && forall i :: 0 <= i < |us| ==> us[i].nonce == Rund(n0 + i)
  }

  lemma FortlaufendVerkettet(us: seq<Ueberweisung>, vs: seq<Ueberweisung>, n0: int, n1: int, n2: int)
    requires Fortlaufend(us, n0, n1) && Fortlaufend(vs, n1, n2)
    ensures Fortlaufend(us + vs, n0, n2)
  {
    hide Rund;
    forall i | 0 <= i < |vs| ensures vs[i].nonce == Rund(n0 + (|us| + i)) {
      RundPlus(n0 + |us|, i);
    }
    RundPlus(n0 + |us|, |vs|);
  }

  lemma RundPlus(x: int, y: int)
    ensures Rund(Rund(x) + y) == Rund(x + y)
  {
  }

  lemma GutschriftNonce(w: Welt, r: Rahmen, l: Lauf, a: string, betrag: Int64, a': string)
    requires l.z.Voll?
    ensures var l' := Gutschrift(w, r, l, a, Inhalt(l.z.konten, a), betrag);
      l'.z.Voll? && Inhalt(l'.z.konten, a').nonce == Inhalt(l.z.konten, a').nonce && l'.angewandt == l.angewandt
  {
    hide SetzeKonto;
    var k1 := Nachgetragen(r, Inhalt(l.z.konten, a));
    InhaltNachSetze(w, l.z, a, Gekappt(r, k1.(guthaben := Wrap(k1.guthaben + betrag))), a');
  }

  /** A step moves a nonce only by applying a transfer of that account, which carries the old nonce. */
  lemma TueNonce(w: Welt, b: Block, l: Lauf, x: Eingabe, a: string)
    requires l.z.Voll? && Tue(w, b, l, x).Weiter?
    ensures var l' := Tue(w, b, l, x).lauf; var n, n' := Inhalt(l.z.konten, a).nonce, Inhalt(l'.z.konten, a).nonce;
      && l'.z.Voll?
      && (if Angewandt(l', x) && x.u.von == a then x.u.nonce == n && n' == (n + 1) % ZWEI64 else n' == n)
  {
    hide SetzeKonto, Gutschrift, Gebuehr, Nachtrag, Inhalt, Verbrauche, VorabUebersprungen, Nachgetragen;
    forall l: Lauf, c, betrag | l.z.Voll?
      ensures var l' := Gutschrift(w, b.rahmen, l, c, Inhalt(l.z.konten, c), betrag);
        l'.z.Voll? && Inhalt(l'.z.konten, a).nonce == Inhalt(l.z.konten, a).nonce && l'.angewandt == l.angewandt
    {
      GutschriftNonce(w, b.rahmen, l, c, betrag, a);
    }
    match x
    case Einloesung(q) => VerbraucheVoll(w, l.z, q.id);
    case Anmeldung(c) =>
      var k := Inhalt(l.z.konten, c);
      InhaltNachSetze(w, l.z, c,
        k.(mensch := true, geStand := b.rahmen.geKumuliert, guthaben := Wrap(k.guthaben + GRUNDBETRAG)), a);
    case Zahlung(_, u) =>
      var von := Nachgetragen(b.rahmen, Inhalt(l.z.konten, u.von));
      NachtragEinmal(b.rahmen, Inhalt(l.z.konten, u.von));
      InhaltNachSetze(w, l.z, u.von, von, a);
      InhaltNachSetze(w, l.z, u.von, Belastet(u, von), a);
  }

  lemma {:induction false} FolgeNonce(w: Welt, b: Block, l: Lauf, plan: seq<Eingabe>, a: string)
    requires l.z.Voll? && Folge(w, b, l, plan).Weiter?
    ensures Folge(w, b, l, plan).lauf.z.Voll?
    ensures Fortlaufend(Von(a, Gebucht(w, b, l, plan)),
                        Inhalt(l.z.konten, a).nonce, Inhalt(Folge(w, b, l, plan).lauf.z.konten, a).nonce)
    decreases |plan|
  {
    hide Tue, Fortlaufend, Angewandt;
    if plan != [] {
      var l' := Tue(w, b, l, plan[0]).lauf;
      var eins := if plan[0].Zahlung? && Angewandt(l', plan[0]) then [plan[0].u] else [];
      assert Angewandt(l', plan[0]) ==> plan[0].Zahlung? by { AngewandtZahlung(l', plan[0]); }
      TueNonce(w, b, l, plan[0], a);
      FolgeNonce(w, b, l', plan[1..], a);
      VonVerkettet(a, eins, Gebucht(w, b, l', plan[1..]));
      var n, n', n'' := Inhalt(l.z.konten, a).nonce, Inhalt(l'.z.konten, a).nonce,
        Inhalt(Folge(w, b, l, plan).lauf.z.konten, a).nonce;
      assert Fortlaufend(Von(a, eins), n, n') by { EinsFortlaufend(a, eins, n, n'); }
      FortlaufendVerkettet(Von(a, eins), Von(a, Gebucht(w, b, l', plan[1..])), n, n', n'');
    } else {
      NullFortlaufend(Inhalt(l.z.konten, a).nonce);
    }
  }

  lemma AngewandtZahlung(l: Lauf, x: Eingabe)
    ensures Angewandt(l, x) ==> x.Zahlung?
  {
  }

  lemma NullFortlaufend(n: UInt64)
    ensures Fortlaufend([], n, n)
  {
  }

  lemma EinsFortlaufend(a: string, eins: seq<Ueberweisung>, n: UInt64, n': UInt64)
    requires |eins| <= 1
    requires if eins != [] && eins[0].von == a then eins[0].nonce == n && n' == (n + 1) % ZWEI64 else n' == n
    ensures Fortlaufend(Von(a, eins), n, n')
  {
    if eins != [] { assert eins[..0] == []; }
  }

  // ---- chains of blocks --------------------------------------------------------------------------

  datatype Glied = Glied(block: Block, eingaben: Eingaben)

  /** State, receipts redeemed and transfers applied after a chain of blocks; None if one fails. */
  datatype Verlauf = Verlauf(z: Zustand, ids: seq<Hash>, gebucht: seq<Ueberweisung>)

  function Kette(w: Welt, z: Zustand, ks: seq<Glied>): Option<Verlauf> {
    if ks == [] then Some(Verlauf(z, [], []))
    else match Kette(w, z, ks[..|ks| - 1])
      case None => None
      case Some(v) =>
        var k := ks[|ks| - 1];
        match Ausfuehren(w, k.block, v.z, k.eingaben)
        case Abbruch(_, _) => None
        case Weiter(l) => Some(Verlauf(l.z, v.ids + l.quittungen,
                                       v.gebucht + Gebucht(w, k.block, Anfang(v.z), Plan(k.eingaben))))
  }

  lemma BuchVerkettet(w: Welt, U: iset<Urbild>, z0: Zustand, z1: Zustand, z2: Zustand, xs: seq<Hash>, ys: seq<Hash>)
    requires Eingangsbuch(w, U, z0, z1, xs) && Eingangsbuch(w, U, z1, z2, ys)
    ensures Eingangsbuch(w, U, z0, z2, xs + ys)
  {
    hide Eingeloest;
    var s := xs + ys;
    forall i, j | 0 <= i < j < |s| ensures s[i] != s[j] {
      if i < |xs| <= j { assert xs[i] in xs && ys[j - |xs|] in ys; }
    }
  }

  lemma BuchAnfang(w: Welt, U: iset<Urbild>, z: Zustand)
    requires z.Voll?
    ensures Eingangsbuch(w, U, z, z, [])
  {
  }

  /** Over a whole chain every receipt is credited at most once, none that was redeemed
      before, and exactly the credited ones become redeemed. */
  lemma {:induction false} KetteLoestEinmalEin(w: Welt, U: iset<Urbild>, z: Zustand, ks: seq<Glied>)
    requires Sicher(w, U) && z.Voll? && Kette(w, z, ks).Some?
    requires forall k :: k in ks ==> PlanBenannt(Plan(k.eingaben), U)
    ensures Eingangsbuch(w, U, z, Kette(w, z, ks).wert.z, Kette(w, z, ks).wert.ids)
  {
    hide Eingangsbuch, Folge, Plan, PlanBenannt, Gebucht;
    if ks == [] {
      BuchAnfang(w, U, z);
    } else {
      var n := |ks| - 1;
      KetteLoestEinmalEin(w, U, z, ks[..n]);
      var v := Kette(w, z, ks[..n]).wert;
      BuchVoll(w, U, z, v.z, v.ids);
      BuchAnfang(w, U, v.z);
      FolgeBuch(w, U, ks[n].block, v.z, Anfang(v.z), Plan(ks[n].eingaben));
      var l := Ausfuehren(w, ks[n].block, v.z, ks[n].eingaben).lauf;
      BuchVerkettet(w, U, z, v.z, l.z, v.ids, l.quittungen);
    }
  }

  /** Over a whole chain the applied transfers of every account carry consecutive nonces. */
  lemma {:induction false} KetteNoncenFortlaufend(w: Welt, z: Zustand, ks: seq<Glied>, a: string)
    requires z.Voll? && Kette(w, z, ks).Some?
    ensures var v := Kette(w, z, ks).wert;
      v.z.Voll? && Fortlaufend(Von(a, v.gebucht), Inhalt(z.konten, a).nonce, Inhalt(v.z.konten, a).nonce)
  {
    hide Fortlaufend, Folge, Plan, Gebucht, Inhalt;
    if ks == [] {
      NullFortlaufend(Inhalt(z.konten, a).nonce);
    } else {
      var n := |ks| - 1;
      KetteNoncenFortlaufend(w, z, ks[..n], a);
      var v := Kette(w, z, ks[..n]).wert;
      var b, plan := ks[n].block, Plan(ks[n].eingaben);
      FolgeNonce(w, b, Anfang(v.z), plan, a);
      VonVerkettet(a, v.gebucht, Gebucht(w, b, Anfang(v.z), plan));
      FortlaufendVerkettet(Von(a, v.gebucht), Von(a, Gebucht(w, b, Anfang(v.z), plan)),
        Inhalt(z.konten, a).nonce, Inhalt(v.z.konten, a).nonce, Inhalt(Kette(w, z, ks).wert.z.konten, a).nonce);
    }
  }

  /** So no sender and nonce are applied twice before the sender's nonce has gone all the way round. */
  lemma KetteBuchtEinmal(w: Welt, z: Zustand, ks: seq<Glied>, a: string, i: nat, j: nat)
    requires z.Voll? && Kette(w, z, ks).Some?
    requires i < j < |Von(a, Kette(w, z, ks).wert.gebucht)| <= ZWEI64
    ensures Von(a, Kette(w, z, ks).wert.gebucht)[i].nonce != Von(a, Kette(w, z, ks).wert.gebucht)[j].nonce
  {
    hide Kette, Von;
    KetteNoncenFortlaufend(w, z, ks, a);
    var n0 := Inhalt(z.konten, a).nonce;
    assert Rund(n0 + i) != Rund(n0 + j);
  }

  // ---- issued ids -----------------------------------------------------------------------------------

  /** The receipts issued so far by block b carry the ids of increasing input positions below `grenze`. */
  ghost predicate Ausgestellt(w: Welt, b: Block, qs: seq<Quittung>, stellen: seq<nat>, grenze: nat) {
    && |stellen| == |qs|
    && (forall i :: 0 <= i < |qs| ==> qs[i].id == w.sha(QuittungU(b.id, stellen[i])) && stellen[i] < grenze)
    && forall i, j :: 0 <= i < j < |qs| ==> stellen[i] < stellen[j]
  }

  lemma TueStelltAus(w: Welt, b: Block, l: Lauf, x: Eingabe, stellen: seq<nat>, grenze: nat) returns (neu: seq<nat>)
    requires Ausgestellt(w, b, l.ausgang, stellen, grenze) && (x.Zahlung? ==> grenze <= x.i)
    ensures Ausgestellt(w, b, Tue(w, b, l, x).lauf.ausgang, neu, if x.Zahlung? then x.i + 1 else grenze)
  {
    hide SetzeKonto, Verbrauche, Nachgetragen, Belastet, Gebuehr, Gekappt, Kappung, Nachtrag, Gedeckt, LiesKonto;
    neu := if Tue(w, b, l, x).lauf.ausgang == l.ausgang then stellen else stellen + [x.i];
  }

  /** Transfers numbered in order, from position `von` on and below `bis`. */
  predicate Nummeriert(plan: seq<Eingabe>, von: nat, bis: nat)
    decreases |plan|
  {
    if plan == [] then von <= bis
    else if plan[0].Zahlung? then von <= plan[0].i && Nummeriert(plan[1..], plan[0].i + 1, bis)
    else Nummeriert(plan[1..], von, bis)
  }

  lemma {:induction false} NummeriertBis(plan: seq<Eingabe>, von: nat, bis: nat)
    requires Nummeriert(plan, von, bis)
    ensures von <= bis
    decreases |plan|
  {
    if plan != [] { NummeriertBis(plan[1..], if plan[0].Zahlung? then plan[0].i + 1 else von, bis); }
  }

  lemma {:induction false} FolgeStelltAus(w: Welt, b: Block, l: Lauf, plan: seq<Eingabe>, stellen: seq<nat>,
                                          von: nat, bis: nat)
    returns (neu: seq<nat>)
    requires Ausgestellt(w, b, l.ausgang, stellen, von) && Nummeriert(plan, von, bis)
    ensures Ausgestellt(w, b, Folge(w, b, l, plan).lauf.ausgang, neu, bis)
    decreases |plan|
  {
    hide Ausgestellt, Tue;
    NummeriertBis(plan, von, bis);
    neu := stellen;
    if plan == [] {
      AusgestelltBis(w, b, l.ausgang, stellen, von, bis);
    } else {
      neu := TueStelltAus(w, b, l, plan[0], stellen, von);
      var von' := if plan[0].Zahlung? then plan[0].i + 1 else von;
      if Tue(w, b, l, plan[0]).Weiter? {
        neu := FolgeStelltAus(w, b, Tue(w, b, l, plan[0]).lauf, plan[1..], neu, von', bis);
      } else {
        NummeriertBis(plan[1..], von', bis);
        AusgestelltBis(w, b, Tue(w, b, l, plan[0]).lauf.ausgang, neu, von', bis);
      }
    }
  }

  lemma AusgestelltBis(w: Welt, b: Block, qs: seq<Quittung>, stellen: seq<nat>, von: nat, bis: nat)
    requires Ausgestellt(w, b, qs, stellen, von) && von <= bis
    ensures Ausgestellt(w, b, qs, stellen, bis)
  {
  }

  lemma {:induction false} ZahlungenNummeriert(us: seq<Ueberweisung>, von: nat)
    requires von <= |us|
    ensures Nummeriert(seq(|us| - von, i requires 0 <= i < |us| - von => Zahlung(von + i, us[von + i])), von, |us|)
    decreases |us| - von
  {
    if von < |us| {
      ZahlungenNummeriert(us, von + 1);
      var s := seq(|us| - von, i requires 0 <= i < |us| - von => Zahlung(von + i, us[von + i]));
      assert s[1..] == seq(|us| - (von + 1),
        i requires 0 <= i < |us| - (von + 1) => Zahlung(von + 1 + i, us[von + 1 + i]));
    }
  }

  lemma {:induction false} OhneZahlungNummeriert(p: seq<Eingabe>, rest: seq<Eingabe>, bis: nat)
    requires (forall x :: x in p ==> !x.Zahlung?) && Nummeriert(rest, 0, bis)
    ensures Nummeriert(p + rest, 0, bis)
  {
    if p == [] {
      assert p + rest == rest;
    } else {
      OhneZahlungNummeriert(p[1..], rest, bis);
      assert (p + rest)[1..] == p[1..] + rest;
    }
  }

  lemma PlanNummeriert(e: Eingaben)
    ensures Nummeriert(Plan(e), 0, |e.ueberweisungen|)
  {
    var us := e.ueberweisungen;
    ZahlungenNummeriert(us, 0);
    var z := seq(|us| - 0, i requires 0 <= i < |us| - 0 => Zahlung(0 + i, us[0 + i]));
    assert z == seq(|us|, i requires 0 <= i < |us| => Zahlung(i, us[i]));
    OhneZahlungNummeriert(Plan(e)[..|Plan(e)| - |us|], z, |us|);
    assert Plan(e) == Plan(e)[..|Plan(e)| - |us|] + z;
  }

  /** The ids a block with n transfers can issue. */
  ghost predicate IdsBenannt(b: Block, n: nat, U: iset<Urbild>) {
    forall i: nat :: i < n ==> QuittungU(b.id, i) in U
  }

  /** A block never issues the same id twice, and only ids of its own transfers. */
  lemma BlockStelltEinmalAus(w: Welt, U: iset<Urbild>, b: Block, z: Zustand, e: Eingaben)
    requires Sicher(w, U) && IdsBenannt(b, |e.ueberweisungen|, U)
    ensures var qs := Ausfuehren(w, b, z, e).lauf.ausgang;
      && (forall q :: q in qs ==> exists i: nat :: i < |e.ueberweisungen| && q.id == w.sha(QuittungU(b.id, i)))
      && forall i, j :: 0 <= i < j < |qs| ==> qs[i].id != qs[j].id
  {
    hide Folge, Plan;
    PlanNummeriert(e);
    var stellen := FolgeStelltAus(w, b, Anfang(z), Plan(e), [], 0, |e.ueberweisungen|);
    var qs := Ausfuehren(w, b, z, e).lauf.ausgang;
    forall q | q in qs ensures exists i: nat :: i < |e.ueberweisungen| && q.id == w.sha(QuittungU(b.id, i)) {
      var k :| 0 <= k < |qs| && qs[k] == q;
      assert q.id == w.sha(QuittungU(b.id, stellen[k]));
    }
    forall i, j | 0 <= i < j < |qs| ensures qs[i].id != qs[j].id {
      assert QuittungU(b.id, stellen[i]) in U && QuittungU(b.id, stellen[j]) in U;
    }
  }

  /** Blocks of one shard have different numbers, blocks of two shards different shards;
      either way they never issue the same id. */
  lemma VerschiedeneBloeckeVerschiedeneIds(w: Welt, U: iset<Urbild>, x: BereichsBlock, y: BereichsBlock, i: nat, j: nat)
    requires Sicher(w, U) && (x.bereich != y.bereich || x.nr != y.nr)
    requires BlockU(x.bereich, x.epoche, x.nr, x.vor, w.sha(EingabenU(x.eingaben))) in U
    requires BlockU(y.bereich, y.epoche, y.nr, y.vor, w.sha(EingabenU(y.eingaben))) in U
    requires QuittungU(EingabenID(w, x), i) in U && QuittungU(EingabenID(w, y), j) in U
    ensures w.sha(QuittungU(EingabenID(w, x), i)) != w.sha(QuittungU(EingabenID(w, y), j))
  {
    assert EingabenID(w, x) != EingabenID(w, y);
  }

  /** A block about to be executed under a frame, on a state of its shard. */
  datatype Ausfuehrung = Ausfuehrung(b: BereichsBlock, r: Rahmen, z: Zustand)

  function Kontext(w: Welt, x: Ausfuehrung): Block { Block(x.b.bereich, x.r, EingabenID(w, x.b)) }

  /** The receipts one execution issues, up to where it aborts if it does. */
  function Ausgang(w: Welt, x: Ausfuehrung): seq<Quittung> {
    Ausfuehren(w, Kontext(w, x), x.z, x.b.eingaben).lauf.ausgang
  }

  /** All receipts a list of executions issues, in order. */
  function Ausgaenge(w: Welt, xs: seq<Ausfuehrung>): seq<Quittung> {
    if xs == [] then [] else Ausgaenge(w, xs[..|xs| - 1]) + Ausgang(w, xs[|xs| - 1])
  }

  predicate VerschiedeneStelle(x: BereichsBlock, y: BereichsBlock) { x.bereich != y.bereich || x.nr != y.nr }

  /** U holds what is hashed for the receipt ids of a block. */
  ghost predicate BlockBenannt(w: Welt, U: iset<Urbild>, b: BereichsBlock) {
    && BlockU(b.bereich, b.epoche, b.nr, b.vor, w.sha(EingabenU(b.eingaben))) in U
    && forall i: nat :: i < |b.eingaben.ueberweisungen| ==> QuittungU(EingabenID(w, b), i) in U
  }

  predicate VerschiedeneIds(qs: seq<Quittung>) { forall i, j :: 0 <= i < j < |qs| ==> qs[i].id != qs[j].id }

  lemma AusgangEinmal(w: Welt, U: iset<Urbild>, x: Ausfuehrung)
    requires Sicher(w, U) && BlockBenannt(w, U, x.b)
    ensures VerschiedeneIds(Ausgang(w, x))
    ensures forall q :: q in Ausgang(w, x) ==> Abgeleitet(w, x.b, q.id)
  {
    hide Ausfuehren, EingabenID;
    BlockStelltEinmalAus(w, U, Kontext(w, x), x.z, x.b.eingaben);
  }

  /** The id of one of the transfers of b. */
  ghost predicate Abgeleitet(w: Welt, b: BereichsBlock, id: Hash) {
    exists i: nat :: i < |b.eingaben.ueberweisungen| && id == w.sha(QuittungU(EingabenID(w, b), i))
  }

  lemma AbgeleitetVerschieden(w: Welt, U: iset<Urbild>, x: BereichsBlock, y: BereichsBlock, id: Hash)
    requires Sicher(w, U) && BlockBenannt(w, U, x) && BlockBenannt(w, U, y) && VerschiedeneStelle(x, y)
    ensures !(Abgeleitet(w, x, id) && Abgeleitet(w, y, id))
  {
    hide EingabenID, Sicher;
    if Abgeleitet(w, x, id) && Abgeleitet(w, y, id) {
      var i: nat :| i < |x.eingaben.ueberweisungen| && id == w.sha(QuittungU(EingabenID(w, x), i));
      var j: nat :| j < |y.eingaben.ueberweisungen| && id == w.sha(QuittungU(EingabenID(w, y), j));
      VerschiedeneBloeckeVerschiedeneIds(w, U, x, y, i, j);
    }
  }

  lemma {:induction false} AusAusgaengen(w: Welt, U: iset<Urbild>, xs: seq<Ausfuehrung>, q: Quittung) returns (k: nat)
    requires Sicher(w, U) && (forall x :: x in xs ==> BlockBenannt(w, U, x.b)) && q in Ausgaenge(w, xs)
    ensures k < |xs| && Abgeleitet(w, xs[k].b, q.id)
  {
    hide Ausgang, Abgeleitet, BlockBenannt, Sicher;
    var n := |xs| - 1;
    if q in Ausgang(w, xs[n]) {
      AusgangEinmal(w, U, xs[n]);
      k := n;
    } else {
      k := AusAusgaengen(w, U, xs[..n], q);
    }
  }

  lemma IdsVerkettet(xs: seq<Quittung>, ys: seq<Quittung>)
    requires VerschiedeneIds(xs) && VerschiedeneIds(ys) && forall x, y :: x in xs && y in ys ==> x.id != y.id
    ensures VerschiedeneIds(xs + ys)
  {
    var zs := xs + ys;
    forall i, j | 0 <= i < j < |zs| ensures zs[i].id != zs[j].id {
      if i < |xs| <= j { assert xs[i] in xs && ys[j - |xs|] in ys; }
    }
  }

  /** Blocks of pairwise different shard or number never issue an id twice, whatever they hold, in
      whatever order and on whatever states they are executed. */
  lemma {:induction false} AlleIdsVerschieden(w: Welt, U: iset<Urbild>, xs: seq<Ausfuehrung>)
    requires Sicher(w, U) && forall x :: x in xs ==> BlockBenannt(w, U, x.b)
    requires forall k, l :: 0 <= k < l < |xs| ==> VerschiedeneStelle(xs[k].b, xs[l].b)
    ensures VerschiedeneIds(Ausgaenge(w, xs))
  {
    hide Ausgang, Abgeleitet, BlockBenannt, Sicher, VerschiedeneStelle;
    if xs != [] {
      var n := |xs| - 1;
      AlleIdsVerschieden(w, U, xs[..n]);
      AusgangEinmal(w, U, xs[n]);
      forall q, q' | q in Ausgaenge(w, xs[..n]) && q' in Ausgang(w, xs[n]) ensures q.id != q'.id {
        var k := AusAusgaengen(w, U, xs[..n], q);
        AbgeleitetVerschieden(w, U, xs[k].b, xs[n].b, q.id);
      }
      IdsVerkettet(Ausgaenge(w, xs[..n]), Ausgang(w, xs[n]));
    }
  }
}
