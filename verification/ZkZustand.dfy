/**
 The dense state behind the transfer circuit: levels kept up to date path by path, and
 bundles of transfers turned into witnesses.
 */
module ZkZustand {
  import opened ZkBaum
  import opened ZkKreis
  import T = Typen

  // ---- levels ------------------------------------------------------------------------------

  /** Right shift. */
  function Schiebe(i: nat, d: nat): nat {
    if d == 0 then i else Schiebe(i, d - 1) / 2
  }

  /** Level d of the tree over xs. */
  function Ebene(c: Krypto, xs: seq<Feld>, d: nat): seq<Feld> {
    if d == 0 then xs else Darueber(c, Ebene(c, xs, d - 1))
  }

  lemma {:induction false} EbeneGroesse(c: Krypto, xs: seq<Feld>, d: nat, t: nat)
    requires |xs| == Zwei(t) && d <= t
    ensures |Ebene(c, xs, d)| == Zwei(t - d)
  {
    if d > 0 { EbeneGroesse(c, xs, d - 1, t); }
  }

  lemma {:induction false} StelleImBaum(i: nat, d: nat, t: nat)
    requires i < Zwei(t) && d <= t
    ensures Schiebe(i, d) < Zwei(t - d)
  {
    if d > 0 { StelleImBaum(i, d - 1, t); }
  }

  lemma {:induction false} SchiebeVorne(i: nat, d: nat)
    ensures Schiebe(i / 2, d) == Schiebe(i, d + 1)
  {
    if d > 0 { SchiebeVorne(i, d - 1); }
  }

  lemma {:induction false} EbeneVorne(c: Krypto, xs: seq<Feld>, d: nat)
    ensures Ebene(c, Darueber(c, xs), d) == Ebene(c, xs, d + 1)
  {
    hide Darueber;
    if d > 0 { EbeneVorne(c, xs, d - 1); }
  }

  /** The top level holds the root. */
  lemma {:induction false} EbeneOben(c: Krypto, xs: seq<Feld>, t: nat)
    requires |xs| == Zwei(t)
    ensures Ebene(c, xs, t) == [Spitze(c, xs, t)]
    decreases t
  {
    hide Darueber;
    if t > 0 {
      EbeneOben(c, Darueber(c, xs), t - 1);
      EbeneVorne(c, xs, t - 1);
    } else {
      assert xs == [xs[0]];
    }
  }

  /** The path above a node reads one sibling per level. */
  lemma {:induction false} PfadAusEbenen(c: Krypto, xs: seq<Feld>, i: nat, d: nat, t: nat)
    requires |xs| == Zwei(t) && i < |xs| && d < t
    ensures Nachbar(Schiebe(i, d)) < |Ebene(c, xs, d)|
    ensures Pfad(c, xs, i, t)[d] == Ebene(c, xs, d)[Nachbar(Schiebe(i, d))]
    decreases t
  {
    hide Darueber, Pfad, Nachbar;
    PfadEins(c, xs, i, t);
    if d == 0 {
      assert Schiebe(i, 0) == i && Ebene(c, xs, 0) == xs;
    } else {
      hide Ebene, Schiebe;
      PfadAusEbenen(c, Darueber(c, xs), i / 2, d - 1, t - 1);
      EbeneVorne(c, xs, d - 1);
      SchiebeVorne(i, d - 1);
    }
  }

  /** Replacing one leaf changes one node of each level, and that to the hash of the two below it. */
  lemma {:induction false} EbeneNach(c: Krypto, xs: seq<Feld>, i: nat, h: Feld, d: nat, t: nat)
    requires |xs| == Zwei(t) && i < |xs| && 0 < d <= t
    ensures |Ebene(c, xs, d)| == |Ebene(c, xs[i := h], d)| == Zwei(t - d)
    ensures var neu := Ebene(c, xs[i := h], d - 1); var j := Schiebe(i, d);
      && 2 * j + 1 < |neu| && j < Zwei(t - d)
      && Ebene(c, xs[i := h], d) == Ebene(c, xs, d)[j := Eltern(c, neu, j)]
  {
    hide Kinder, PaarUrbild;
    EbeneGroesse(c, xs, d, t);
    EbeneGroesse(c, xs, d - 1, t);
    EbeneGroesse(c, xs[i := h], d, t);
    EbeneGroesse(c, xs[i := h], d - 1, t);
    StelleImBaum(i, d, t);
    StelleImBaum(i, d - 1, t);
    var alt, j := Ebene(c, xs, d - 1), Schiebe(i, d - 1);
    if d == 1 {
      DarueberEinzeln(c, alt, j, h);
    } else {
      EbeneNach(c, xs, i, h, d - 1, t);
      DarueberEinzeln(c, alt, j, Ebene(c, xs[i := h], d - 1)[j]);
    }
  }

  lemma DarueberEinzeln(c: Krypto, xs: seq<Feld>, i: nat, h: Feld)
    requires i < |xs| && |xs| % 2 == 0
    ensures Darueber(c, xs[i := h]) == Darueber(c, xs)[i / 2 := Eltern(c, xs[i := h], i / 2)]
  {
    hide PaarUrbild;
    DarueberNach(c, xs, i, h);
    KinderNach(xs, i, h, i / 2);
  }

  // ---- bundles -----------------------------------------------------------------------------

  /** A signer: a signature for each public key and message. */
  type Signierer = (Feld, Feld, Feld) -> Signatur

  ghost predicate Ehrlich(c: Krypto, s: Signierer) {
    forall x: Feld, y: Feld, m: Feld :: c.gueltig(x, y, m, s(x, y, m))
  }

  predicate In64(k: Konto) { k.guthaben < ZWEI64 && k.nonce < ZWEI64 }

  predicate Alle64(ks: seq<Konto>) { forall i :: 0 <= i < |ks| ==> In64(ks[i]) }

  /** An order as the program takes it: two existing accounts and an unsigned 64-bit amount. */
  predicate Lesbar(ks: seq<Konto>, a: Auftrag) { a.von < |ks| && a.an < |ks| && a.betrag < ZWEI64 }

  predicate AlleLesbar(ks: seq<Konto>, auftraege: seq<Auftrag>) {
    forall i :: 0 <= i < |auftraege| ==> Lesbar(ks, auftraege[i])
  }

  function Belastet(k: Konto, betrag: nat): Konto
    requires In64(k) && betrag <= k.guthaben
    ensures In64(Belastet(k, betrag))
  {
    k.(guthaben := k.guthaben - betrag, nonce := (k.nonce + 1) % ZWEI64)
  }

  function Gutgeschrieben(k: Konto, betrag: nat): Konto
    ensures k.nonce < ZWEI64 ==> In64(Gutgeschrieben(k, betrag))
  {
    k.(guthaben := (k.guthaben + betrag) % ZWEI64)
  }

  predicate Annehmbar(ks: seq<Konto>, a: Auftrag)
    requires Lesbar(ks, a)
  {
    a.von != a.an && a.betrag <= ks[a.von].guthaben
  }

  /** The state between debit and credit. */
  function NachBelastung(ks: seq<Konto>, a: Auftrag): (ks': seq<Konto>)
    requires Alle64(ks) && Lesbar(ks, a) && Annehmbar(ks, a)
    ensures |ks'| == |ks| && Alle64(ks')
  {
    ks[a.von := Belastet(ks[a.von], a.betrag)]
  }

  /** An accepted order in the program's own 64-bit arithmetic. */
  function Gebucht(ks: seq<Konto>, a: Auftrag): (ks': seq<Konto>)
    requires Alle64(ks) && Lesbar(ks, a) && Annehmbar(ks, a)
    ensures |ks'| == |ks| && Alle64(ks')
  {
    var ks1 := NachBelastung(ks, a);
    ks1[a.an := Gutgeschrieben(ks1[a.an], a.betrag)]
  }

  function Zeuge(c: Krypto, s: Signierer, ks: seq<Konto>, a: Auftrag, t: nat): TxZeuge
    requires |ks| == Zwei(t) <= P && Alle64(ks) && Lesbar(ks, a) && Annehmbar(ks, a)
  {
    var von := ks[a.von];
    var ks1 := NachBelastung(ks, a);
    TxZeuge(a.von, a.an, von, ks1[a.an],
      Pfad(c, Blaetter(c, ks), a.von, t), Pfad(c, Blaetter(c, ks1), a.an, t), a.betrag,
      s(von.x, von.y, Nachricht(c, a.von, a.an, a.betrag, von.nonce)))
  }

  /** The state and, unless an order is refused, the witnesses a list of orders leads to. */
  function Buendeln(c: Krypto, s: Signierer, ks: seq<Konto>, auftraege: seq<Auftrag>, t: nat):
      (r: (seq<Konto>, T.Option<seq<TxZeuge>>))
    requires |ks| == Zwei(t) <= P && Alle64(ks) && AlleLesbar(ks, auftraege)
    ensures |r.0| == |ks| && Alle64(r.0)
    decreases |auftraege|
  {
    if auftraege == [] then (ks, T.Some([]))
    else if !Annehmbar(ks, auftraege[0]) then (ks, T.None)
    else
      var (ende, rest) := Buendeln(c, s, Gebucht(ks, auftraege[0]), auftraege[1..], t);
      (ende, if rest.None? then T.None else T.Some([Zeuge(c, s, ks, auftraege[0], t)] + rest.wert))
  }

  /** No order takes a balance or a nonce past 64 bits. */
  predicate OhneUeberlauf(ks: seq<Konto>, auftraege: seq<Auftrag>)
    requires Alle64(ks) && AlleLesbar(ks, auftraege)
    decreases |auftraege|
  {
    auftraege != [] && Annehmbar(ks, auftraege[0]) ==>
      && Passt(ks, auftraege[0])
      && OhneUeberlauf(Gebucht(ks, auftraege[0]), auftraege[1..])
  }

  predicate Passt(ks: seq<Konto>, a: Auftrag)
    requires Lesbar(ks, a)
  {
    ks[a.an].guthaben + a.betrag < ZWEI64 && ks[a.von].nonce + 1 < ZWEI64
  }

  // ---- completeness ------------------------------------------------------------------------

  /** In 64 bits circuit and program book alike. */
  lemma GleichGebucht(c: Krypto, s: Signierer, ks: seq<Konto>, a: Auftrag, t: nat)
    requires |ks| == Zwei(t) <= P && Alle64(ks) && Lesbar(ks, a) && Annehmbar(ks, a) && Passt(ks, a)
    ensures var tx := Zeuge(c, s, ks, a, t);
      && NeuVon(tx) == Belastet(ks[a.von], a.betrag) && NeuAn(tx) == Gutgeschrieben(ks[a.an], a.betrag)
      && NeuAn(tx).guthaben < ZWEI64 && NeuVon(tx).guthaben < ZWEI64
    ensures Ueberweise(ks, a) == T.Some(Gebucht(ks, a))
  {
    hide Pfad, Blaetter, Nachricht, Zwei;
    KeinUmlauf(ks[a.von].guthaben, ks[a.an].guthaben, a.betrag);
  }

  lemma FussErsetzt(c: Krypto, ks: seq<Konto>, t: nat, i: nat, k: Konto)
    requires |ks| == Zwei(t) <= P && i < |ks|
    ensures FuehrtZu(c, Blatt(c, k), i, Pfad(c, Blaetter(c, ks), i, t), Wurzel(c, ks[i := k], t))
  {
    hide Pfad, FuehrtZu, Blaetter;
    FuehrtZuGenau(c, Blatt(c, k), i, Pfad(c, Blaetter(c, ks), i, t), Wurzel(c, ks[i := k], t));
    PfadFuehrtHoch(c, Blaetter(c, ks), i, Blatt(c, k), t);
    BlaetterNach(c, ks, i, k);
  }

  lemma FussSteht(c: Krypto, ks: seq<Konto>, t: nat, i: nat)
    requires |ks| == Zwei(t) <= P && i < |ks|
    ensures FuehrtZu(c, Blatt(c, ks[i]), i, Pfad(c, Blaetter(c, ks), i, t), Wurzel(c, ks, t))
  {
    FussErsetzt(c, ks, t, i, ks[i]);
    assert ks[i := ks[i]] == ks;
  }

  /** The witness of one order that fits satisfies all its constraints. */
  lemma ZeugeErfuellt(c: Krypto, s: Signierer, ks: seq<Konto>, a: Auftrag, t: nat)
    requires |ks| == Zwei(t) <= P && Ehrlich(c, s)
    requires Alle64(ks) && Lesbar(ks, a) && Annehmbar(ks, a) && Passt(ks, a)
    ensures TxErfuellt(c, Wurzel(c, ks, t), Zeuge(c, s, ks, a, t),
                       Wurzel(c, NachBelastung(ks, a), t), Wurzel(c, Gebucht(ks, a), t))
  {
    hide Pfad, FuehrtZu, Blaetter, Wurzel, Hat64Bit, Zwei, Blatt, Nachricht;
    GleichGebucht(c, s, ks, a, t);
    var tx, ks1 := Zeuge(c, s, ks, a, t), NachBelastung(ks, a);
    FussSteht(c, ks, t, a.von);
    FussErsetzt(c, ks, t, a.von, NeuVon(tx));
    FussSteht(c, ks1, t, a.an);
    FussErsetzt(c, ks1, t, a.an, NeuAn(tx));
    Hat64BitGenau(a.betrag);
    Hat64BitGenau(NeuVon(tx).guthaben);
    Hat64BitGenau(NeuAn(tx).guthaben);
  }

  /** Without overflow every bundle satisfies the circuit, and its end is that of plain
      transfers; nothing is assumed of the hash. */
  lemma {:induction false} BuendelVollstaendig(c: Krypto, s: Signierer, ks: seq<Konto>, auftraege: seq<Auftrag>, t: nat)
    requires |ks| == Zwei(t) <= P && Ehrlich(c, s) && Alle64(ks) && AlleLesbar(ks, auftraege)
    requires Buendeln(c, s, ks, auftraege, t).1.Some? && OhneUeberlauf(ks, auftraege)
    ensures var (ende, txs) := Buendeln(c, s, ks, auftraege, t);
      && TxsErfuellt(c, Wurzel(c, ks, t), txs.wert, Wurzel(c, ende, t))
      && AuftraegeVon(txs.wert) == auftraege && UeberweiseAlle(ks, auftraege) == T.Some(ende)
    decreases |auftraege|
  {
    hide Wurzel, TxErfuellt, Ueberweise, Zwei, NachBelastung, Gebucht, Ehrlich, Alle64;
    if auftraege != [] {
      var a, ks' := auftraege[0], Gebucht(ks, auftraege[0]);
      ZeugeErfuellt(c, s, ks, a, t);
      GleichGebucht(c, s, ks, a, t);
      BuendelVollstaendig(c, s, ks', auftraege[1..], t);
      var txs := Buendeln(c, s, ks, auftraege, t).1.wert;
      assert txs[0] == Zeuge(c, s, ks, a, t) && txs[1..] == Buendeln(c, s, ks', auftraege[1..], t).1.wert;
      assert AuftraegeVon(txs) == [AuftragVon(txs[0])] + AuftraegeVon(txs[1..]);
    }
  }

  // ---- and only then -----------------------------------------------------------------------

  /** U holds every hash input of the states and witnesses of a bundle. */
  ghost predicate LaufIn(c: Krypto, s: Signierer, U: iset<seq<Feld>>, ks: seq<Konto>, auftraege: seq<Auftrag>, t: nat)
    requires |ks| == Zwei(t) <= P && Alle64(ks) && AlleLesbar(ks, auftraege)
    decreases |auftraege|
  {
    && ZustandIn(c, U, ks, t)
    && (auftraege != [] && Annehmbar(ks, auftraege[0]) ==>
          && ZustandIn(c, U, NachBelastung(ks, auftraege[0]), t)
          && ZeugeIn(c, U, Zeuge(c, s, ks, auftraege[0], t))
          && LaufIn(c, s, U, Gebucht(ks, auftraege[0]), auftraege[1..], t))
  }

  lemma ZustandGebunden(c: Krypto, U: iset<seq<Feld>>, ks: seq<Konto>, ks': seq<Konto>, t: nat)
    requires |ks| == |ks'| == Zwei(t) && Kollisionsfrei(c, U) && ZustandIn(c, U, ks, t) && ZustandIn(c, U, ks', t)
    requires Wurzel(c, ks, t) == Wurzel(c, ks', t)
    ensures ks == ks'
  {
    hide Spitze, BaumIn, Blaetter;
    WurzelBindet(c, U, Blaetter(c, ks), Blaetter(c, ks'), t);
    forall i | 0 <= i < |ks| ensures ks[i] == ks'[i] {
      BlattAn(c, ks, i);
      BlattAn(c, ks', i);
      assert BlattUrbild(ks[i]) in U && BlattUrbild(ks'[i]) in U;
      UrbildBindet(ks[i], ks'[i]);
    }
  }

  /** The witness of an order that overflows satisfies the circuit with no roots at all. */
  lemma UeberlaufScheitert(c: Krypto, s: Signierer, U: iset<seq<Feld>>, ks: seq<Konto>, a: Auftrag, t: nat,
                           zwischen: Feld, neu: Feld)
    requires |ks| == Zwei(t) <= P && Alle64(ks) && Lesbar(ks, a) && Annehmbar(ks, a)
    requires Kollisionsfrei(c, U) && ZustandIn(c, U, ks, t)
    requires ZustandIn(c, U, NachBelastung(ks, a), t) && ZeugeIn(c, U, Zeuge(c, s, ks, a, t))
    requires TxErfuellt(c, Wurzel(c, ks, t), Zeuge(c, s, ks, a, t), zwischen, neu)
    ensures Passt(ks, a) && neu == Wurzel(c, Gebucht(ks, a), t)
  {
    hide Pfad, FuehrtZu, Blaetter, Wurzel, Hat64Bit, Zwei, Blatt, Nachricht, ZustandIn, ZeugeIn, Kollisionsfrei;
    var tx, ks1 := Zeuge(c, s, ks, a, t), NachBelastung(ks, a);
    assert Gedeckt64(ks);
    TxKorrekt(c, U, ks, t, tx, zwischen, neu);
    assert ks[a.von := NeuVon(tx)] == ks1 by {
      FussSteht(c, ks1, t, a.an);
      FuehrtZuGenau(c, Blatt(c, tx.an), tx.anIndex, tx.anPfad, zwischen);
      FuehrtZuGenau(c, Blatt(c, tx.an), tx.anIndex, tx.anPfad, Wurzel(c, ks1, t));
      ZustandGebunden(c, U, ks[a.von := NeuVon(tx)], ks1, t);
    }
    assert NeuVon(tx).nonce == ks1[a.von].nonce;
    GleichGebucht(c, s, ks, a, t);
  }

  /** A bundle satisfies the circuit exactly if nothing in it overflows. */
  lemma {:induction false} BuendelGenau(c: Krypto, s: Signierer, U: iset<seq<Feld>>, ks: seq<Konto>,
                                        auftraege: seq<Auftrag>,
                                        t: nat, ende: Feld)
    requires |ks| == Zwei(t) <= P && Ehrlich(c, s) && Alle64(ks) && AlleLesbar(ks, auftraege)
    requires Kollisionsfrei(c, U) && LaufIn(c, s, U, ks, auftraege, t)
    requires Buendeln(c, s, ks, auftraege, t).1.Some?
    ensures TxsErfuellt(c, Wurzel(c, ks, t), Buendeln(c, s, ks, auftraege, t).1.wert, ende)
      <==> OhneUeberlauf(ks, auftraege) && ende == Wurzel(c, Buendeln(c, s, ks, auftraege, t).0, t)
    decreases |auftraege|
  {
    hide Wurzel, TxErfuellt, ZustandIn, ZeugeIn, Kollisionsfrei, Zwei, NachBelastung, Gebucht, Ehrlich, Alle64,
      Passt, Zeuge;
    if auftraege != [] {
      var a, ks' := auftraege[0], Gebucht(ks, auftraege[0]);
      var w, txs, tx := Wurzel(c, ks, t), Buendeln(c, s, ks, auftraege, t).1.wert, Zeuge(c, s, ks, a, t);
      BuendelGenau(c, s, U, ks', auftraege[1..], t, ende);
      assert txs[0] == tx && txs[1..] == Buendeln(c, s, ks', auftraege[1..], t).1.wert;
      forall zwischen: Feld, neu: Feld | TxErfuellt(c, w, tx, zwischen, neu)
        ensures Passt(ks, a) && neu == Wurzel(c, ks', t)
      {
        UeberlaufScheitert(c, s, U, ks, a, t, zwischen, neu);
      }
      if Passt(ks, a) { ZeugeErfuellt(c, s, ks, a, t); }
    }
  }

  /** Two accounts, one coin, and a recipient already at the limit: the program takes the order
      and its own witness satisfies the circuit with no roots at all. */
  lemma UeberlaufBeispiel(c: Krypto, s: Signierer, wurzel: Feld, ende: Feld)
    ensures var ks := [Konto(0, 0, 1, 0), Konto(1, 1, ZWEI64 - 1, 0)];
      var a := Auftrag(0, 1, 1);
      && Alle64(ks) && AlleLesbar(ks, [a]) && Buendeln(c, s, ks, [a], 1).1.Some?
      && !TxsErfuellt(c, wurzel, Buendeln(c, s, ks, [a], 1).1.wert, ende)
  {
    hide FuehrtZu, Hat64Bit, Pfad, Blaetter;
    var ks := [Konto(0, 0, 1, 0), Konto(1, 1, ZWEI64 - 1, 0)];
    var a := Auftrag(0, 1, 1);
    assert Zwei(1) == 2;
    var tx := Zeuge(c, s, ks, a, 1);
    assert Buendeln(c, s, ks, [a], 1).1 == T.Some([tx]) by {
      assert [a][1..] == [];
      assert [tx] + [] == [tx];
    }
    Hat64BitGenau(NeuAn(tx).guthaben);
    assert NeuAn(tx).guthaben == ZWEI64;
  }

  // ---- the state, updated in place ---------------------------------------------------------

  class Zustand {
    const c: Krypto
    const s: Signierer
    const tiefe: nat
    var konten: seq<Konto>
    var ebenen: seq<seq<Feld>>

    /** As many 64-bit accounts as the depth has room for. */
    ghost predicate Belegt()
      reads this
    {
      |konten| == Zwei(tiefe) <= P && Alle64(konten)
    }

    /** Every level is that of a full recomputation over the accounts. */
    ghost predicate Valid()
      reads this
    {
      && Belegt() && |ebenen| == tiefe + 1
      && forall d :: 0 <= d <= tiefe ==> ebenen[d] == Ebene(c, Blaetter(c, konten), d)
    }

    constructor (c: Krypto, s: Signierer, tiefe: nat, konten: seq<Konto>)
      requires |konten| == Zwei(tiefe) <= P && Alle64(konten)
      ensures Valid() && this.c == c && this.s == s && this.tiefe == tiefe && this.konten == konten
    {
      this.c, this.s, this.tiefe, this.konten, ebenen := c, s, tiefe, konten, [];
      new;
      NeuBerechnen();
    }

    method NeuBerechnen()
      requires Belegt()
      modifies `ebenen
      ensures Valid()
    {
      hide Blatt, Alle64, Blaetter, Ebene;
      var unten := BlaetterVon(c, konten);
      ebenen := AlleEbenen(c, unten, tiefe);
    }

    method Setze(i: nat, k: Konto)
      requires Valid() && i < |konten| && In64(k)
      modifies this
      ensures Valid() && konten == old(konten)[i := k]
    {
      hide Darueber, Blatt, Zwei, Blaetter;
      ghost var alt, xs := old(konten), Blaetter(c, konten[i := k]);
      BlaetterNach(c, alt, i, k);
      konten := konten[i := k];
      var blaetter: seq<Feld> := ebenen[0][i := Blatt(c, k)];
      ebenen := ebenen[0 := blaetter];
      for d := 1 to tiefe + 1
        invariant konten == alt[i := k] && Belegt() && |ebenen| == tiefe + 1
        invariant forall e :: 0 <= e < d ==> ebenen[e] == Ebene(c, xs, e)
        invariant forall e :: d <= e <= tiefe ==> ebenen[e] == Ebene(c, Blaetter(c, alt), e)
      {
        EbeneNach(c, Blaetter(c, alt), i, Blatt(c, k), d, tiefe);
        var j := Schiebe(i, d);
        var h := c.mimc([ebenen[d - 1][2 * j], ebenen[d - 1][2 * j + 1]]);
        var ebene: seq<Feld> := ebenen[d][j := h];
        ebenen := ebenen[d := ebene];
      }
    }

    method WurzelJetzt() returns (w: Feld)
      requires Valid()
      ensures w == Wurzel(c, konten, tiefe)
    {
      EbeneOben(c, Blaetter(c, konten), tiefe);
      w := ebenen[tiefe][0];
    }

    method PfadVon(i: nat) returns (p: seq<Feld>)
      requires Valid() && i < |konten|
      ensures p == Pfad(c, Blaetter(c, konten), i, tiefe)
    {
      hide Ebene, Blaetter;
      ghost var soll := Pfad(c, Blaetter(c, konten), i, tiefe);
      p := [];
      for d := 0 to tiefe
        invariant p == soll[..d]
      {
        PfadAusEbenen(c, Blaetter(c, konten), i, d, tiefe);
        p := p + [ebenen[d][Nachbar(Schiebe(i, d))]];
      }
    }

    /** Applies the orders up to the first refused one; the witness, unless one was refused. */
    method Buendel(auftraege: seq<Auftrag>) returns (r: T.Option<Kreis>)
      requires Valid() && AlleLesbar(konten, auftraege)
      modifies this
      ensures Valid()
      ensures var (ende, txs) := Buendeln(c, s, old(konten), auftraege, tiefe);
        && konten == ende
        && r == if txs.None? then T.None
                else T.Some(Kreis(Wurzel(c, old(konten), tiefe), Wurzel(c, ende, tiefe), txs.wert))
    {
      hide Wurzel, Zwei, NachBelastung, Gebucht, Pfad, Blaetter, Ebene, Alle64, Nachricht;
      var altWurzel := WurzelJetzt();
      var txs := [];
      BuendelnBeginnt(konten, auftraege);
      for i := 0 to |auftraege|
        invariant Valid() && AlleLesbar(konten, auftraege)
        invariant BuendelnBis(old(konten), konten, txs, auftraege, i)
      {
        var a := auftraege[i];
        ghost var vorher := konten;
        if !Annehmbar(konten, a) {
          BuendelnEndet(old(konten), konten, txs, auftraege, i);
          return T.None;
        }
        var tx := Buche(a);
        BuendelnWeiter(old(konten), vorher, txs, auftraege, i);
        txs := txs + [tx];
      }
      var neuWurzel := WurzelJetzt();
      BuendelnEndet(old(konten), konten, txs, auftraege, |auftraege|);
      r := T.Some(Kreis(altWurzel, neuWurzel, txs));
    }

    /** One accepted order: debit, credit, and the witness taken in between. */
    method Buche(a: Auftrag) returns (tx: TxZeuge)
      requires Valid() && Lesbar(konten, a) && Annehmbar(konten, a)
      modifies this
      ensures Valid() && konten == Gebucht(old(konten), a) && tx == Zeuge(c, s, old(konten), a, tiefe)
    {
      hide Zwei, Pfad, Blaetter, Ebene, Nachricht;
      var von := konten[a.von];
      var n := Nachricht(c, a.von, a.an, a.betrag, von.nonce);
      var sig := s(von.x, von.y, n);
      var vonPfad := PfadVon(a.von);
      Setze(a.von, Belastet(von, a.betrag));
      var an := konten[a.an];
      var anPfad := PfadVon(a.an);
      Setze(a.an, Gutgeschrieben(an, a.betrag));
      tx := TxZeuge(a.von, a.an, von, an, vonPfad, anPfad, a.betrag, sig);
    }

    /** The first i orders lead from `von` to `jetzt` with the witnesses txs. */
    ghost predicate BuendelnBis(von: seq<Konto>, jetzt: seq<Konto>, txs: seq<TxZeuge>, auftraege: seq<Auftrag>, i: nat)
      requires |von| == |jetzt| == Zwei(tiefe) <= P && Alle64(von) && Alle64(jetzt)
      requires AlleLesbar(von, auftraege) && i <= |auftraege|
    {
      var (ende, ganz) := Buendeln(c, s, von, auftraege, tiefe);
      var (ende', rest) := Buendeln(c, s, jetzt, auftraege[i..], tiefe);
      && ende == ende'
      && ganz == if rest.None? then T.None else T.Some(txs + rest.wert)
    }

    lemma BuendelnBeginnt(von: seq<Konto>, auftraege: seq<Auftrag>)
      requires |von| == Zwei(tiefe) <= P && Alle64(von) && AlleLesbar(von, auftraege)
      ensures BuendelnBis(von, von, [], auftraege, 0)
    {
      assert auftraege[0..] == auftraege;
      var (e, r) := Buendeln(c, s, von, auftraege, tiefe);
      if r.Some? { assert [] + r.wert == r.wert; }
    }

    lemma BuendelnWeiter(von: seq<Konto>, jetzt: seq<Konto>, txs: seq<TxZeuge>, auftraege: seq<Auftrag>, i: nat)
      requires |von| == |jetzt| == Zwei(tiefe) <= P && Alle64(von) && Alle64(jetzt)
      requires AlleLesbar(von, auftraege) && i < |auftraege| && BuendelnBis(von, jetzt, txs, auftraege, i)
      requires Annehmbar(jetzt, auftraege[i])
      ensures BuendelnBis(von, Gebucht(jetzt, auftraege[i]), txs + [Zeuge(c, s, jetzt, auftraege[i], tiefe)],
                          auftraege, i + 1)
    {
      hide Zwei, NachBelastung, Gebucht, Zeuge;
      var rest := auftraege[i..];
      assert rest[0] == auftraege[i] && rest[1..] == auftraege[i + 1..];
      var (e, r) := Buendeln(c, s, Gebucht(jetzt, auftraege[i]), auftraege[i + 1..], tiefe);
      if r.Some? {
        var z := [Zeuge(c, s, jetzt, auftraege[i], tiefe)];
        assert txs + (z + r.wert) == (txs + z) + r.wert;
      }
    }

    lemma BuendelnEndet(von: seq<Konto>, jetzt: seq<Konto>, txs: seq<TxZeuge>, auftraege: seq<Auftrag>, i: nat)
      requires |von| == |jetzt| == Zwei(tiefe) <= P && Alle64(von) && Alle64(jetzt)
      requires AlleLesbar(von, auftraege) && i <= |auftraege| && BuendelnBis(von, jetzt, txs, auftraege, i)
      requires i < |auftraege| ==> !Annehmbar(jetzt, auftraege[i])
      ensures Buendeln(c, s, von, auftraege, tiefe) == (jetzt, if i < |auftraege| then T.None else T.Some(txs))
    {
      assert txs + [] == txs;
    }
  }

  method BlaetterVon(c: Krypto, ks: seq<Konto>) returns (xs: seq<Feld>)
    ensures xs == Blaetter(c, ks)
  {
    hide Blatt, Blaetter;
    ghost var soll := Blaetter(c, ks);
    xs := [];
    for i := 0 to |ks|
      invariant xs == soll[..i]
    {
      BlattAn(c, ks, i);
      xs := xs + [Blatt(c, ks[i])];
    }
  }

  /** Every level over xs, each from the one below. */
  method AlleEbenen(c: Krypto, xs: seq<Feld>, t: nat) returns (ebenen: seq<seq<Feld>>)
    requires |xs| == Zwei(t)
    ensures |ebenen| == t + 1 && forall d :: 0 <= d <= t ==> ebenen[d] == Ebene(c, xs, d)
  {
    hide Darueber, Zwei;
    ebenen := [xs];
    for d := 1 to t + 1
      invariant |ebenen| == d && forall e :: 0 <= e < d ==> ebenen[e] == Ebene(c, xs, e)
    {
      EbeneGroesse(c, xs, d - 1, t);
      ZweiGerade(t - d + 1);
      var oben := NaechsteEbene(c, ebenen[d - 1]);
      ebenen := ebenen + [oben];
    }
  }

  /** The level above, pair by pair. */
  method NaechsteEbene(c: Krypto, unten: seq<Feld>) returns (oben: seq<Feld>)
    requires |unten| % 2 == 0
    ensures oben == Darueber(c, unten)
  {
    oben := [];
    var i := 0;
    while i < |unten|
      invariant 0 <= i <= |unten| && i % 2 == 0
      invariant oben == Darueber(c, unten)[..i / 2]
    {
      oben := oben + [c.mimc([unten[i], unten[i + 1]])];
      assert oben[i / 2] == Eltern(c, unten, i / 2);
      i := i + 2;
    }
  }
}
