/**
 The transfer circuit: which witnesses satisfy its constraints, and that they are
 exactly the runs of plain transfers.
 */
module ZkKreis {
  import opened ZkBaum
  import T = Typen

  const ZWEI64: int := T.ZWEI64

  /** One transfer with all the prover supplies: both accounts before it, and their paths. */
  datatype TxZeuge = TxZeuge(
    vonIndex: Feld, anIndex: Feld, von: Konto, an: Konto,
    vonPfad: seq<Feld>, anPfad: seq<Feld>, betrag: Feld, sig: Signatur)

  /** A bundle; only the two roots are public. */
  datatype Kreis = Kreis(altWurzel: Feld, neuWurzel: Feld, txs: seq<TxZeuge>)

  // ---- constraints -------------------------------------------------------------------------

  /** Walk up along selected bits. */
  function HochBits(c: Krypto, h: Feld, bits: seq<bool>, pfad: seq<Feld>): Feld
    requires |bits| == |pfad|
    decreases |pfad|
  {
    if pfad == [] then h
    else HochBits(c, c.mimc(if bits[0] then [pfad[0], h] else [h, pfad[0]]), bits[1..], pfad[1..])
  }

  /** The constraints of one root computation can be met with result r. */
  ghost predicate FuehrtZu(c: Krypto, h: Feld, index: Feld, pfad: seq<Feld>, r: Feld) {
    exists bits :: Zerlegt(index, |pfad|, bits) && HochBits(c, h, bits, pfad) == r
  }

  /** The constraints of a 64-bit decomposition can be met. */
  ghost predicate Hat64Bit(v: Feld) { exists bits :: Zerlegt(v, 64, bits) }

  function Nachricht(c: Krypto, vonIndex: Feld, anIndex: Feld, betrag: Feld, nonce: Feld): Feld {
    c.mimc([vonIndex, anIndex, betrag, nonce])
  }

  function NeuVon(tx: TxZeuge): Konto {
    tx.von.(guthaben := Minus(tx.von.guthaben, tx.betrag), nonce := Plus(tx.von.nonce, 1))
  }

  function NeuAn(tx: TxZeuge): Konto { tx.an.(guthaben := Plus(tx.an.guthaben, tx.betrag)) }

  predicate SigniertVon(c: Krypto, von: Konto, tx: TxZeuge) {
    c.gueltig(von.x, von.y, Nachricht(c, tx.vonIndex, tx.anIndex, tx.betrag, von.nonce), tx.sig)
  }

  /** All constraints of one transfer, from root `wurzel` over `zwischen` to `neu`. */
  ghost predicate TxErfuellt(c: Krypto, wurzel: Feld, tx: TxZeuge, zwischen: Feld, neu: Feld) {
    && FuehrtZu(c, Blatt(c, tx.von), tx.vonIndex, tx.vonPfad, wurzel)
    && SigniertVon(c, tx.von, tx)
    && Hat64Bit(tx.betrag) && Hat64Bit(NeuVon(tx).guthaben) && tx.vonIndex != tx.anIndex
    && FuehrtZu(c, Blatt(c, NeuVon(tx)), tx.vonIndex, tx.vonPfad, zwischen)
    && FuehrtZu(c, Blatt(c, tx.an), tx.anIndex, tx.anPfad, zwischen)
    && Hat64Bit(NeuAn(tx).guthaben)
    && FuehrtZu(c, Blatt(c, NeuAn(tx)), tx.anIndex, tx.anPfad, neu)
  }

  /** All constraints of a list of transfers between two roots. */
  ghost predicate TxsErfuellt(c: Krypto, wurzel: Feld, txs: seq<TxZeuge>, ende: Feld)
    decreases |txs|
  {
    if txs == [] then wurzel == ende
    else exists zwischen: Feld, neu: Feld ::
      TxErfuellt(c, wurzel, txs[0], zwischen, neu) && TxsErfuellt(c, neu, txs[1..], ende)
  }

  ghost predicate Erfuellt(c: Krypto, k: Kreis) { TxsErfuellt(c, k.altWurzel, k.txs, k.neuWurzel) }

  /** Paths of the depth the circuit was built for. */
  predicate Tief(tx: TxZeuge, t: nat) { |tx.vonPfad| == |tx.anPfad| == t }

  lemma {:induction false} HochBitsIstHoch(c: Krypto, h: Feld, i: nat, pfad: seq<Feld>)
    ensures HochBits(c, h, Bits(i, |pfad|), pfad) == Hoch(c, h, i, pfad)
    decreases |pfad|
  {
    if pfad != [] {
      assert Bits(i, |pfad|)[1..] == Bits(i / 2, |pfad| - 1);
      HochBitsIstHoch(c, c.mimc(PaarUrbild(h, pfad[0], i)), i / 2, pfad[1..]);
    }
  }

  /** A root computation can be satisfied exactly by the walk along the bits of an index in range. */
  lemma FuehrtZuGenau(c: Krypto, h: Feld, index: Feld, pfad: seq<Feld>, r: Feld)
    requires Zwei(|pfad|) <= P
    ensures FuehrtZu(c, h, index, pfad, r) <==> index < Zwei(|pfad|) && Hoch(c, h, index, pfad) == r
  {
    ZerlegungGenau(index, |pfad|);
    HochBitsIstHoch(c, h, index, pfad);
    if index < Zwei(|pfad|) {
      var bits :| Zerlegt(index, |pfad|, bits);
      assert bits == Bits(index, |pfad|);
    }
  }

  lemma Hat64BitGenau(v: Feld)
    ensures Hat64Bit(v) <==> v < ZWEI64
  {
    Zwei64();
    ZerlegungGenau(v, 64);
  }

  lemma Zwei64()
    ensures Zwei(64) == ZWEI64 <= P
  {
    assert Zwei(0) == 1;
    ZweiPlus8(0);
    ZweiPlus8(8);
    ZweiPlus8(16);
    ZweiPlus8(24);
    ZweiPlus8(32);
    ZweiPlus8(40);
    ZweiPlus8(48);
    ZweiPlus8(56);
  }

  lemma ZweiPlus8(n: nat)
    ensures Zwei(n + 8) == 256 * Zwei(n)
  {
    assert Zwei(n + 4) == 2 * Zwei(n + 3) == 4 * Zwei(n + 2) == 8 * Zwei(n + 1);
    assert Zwei(n + 8) == 2 * Zwei(n + 7) == 4 * Zwei(n + 6) == 8 * Zwei(n + 5);
  }

  // ---- the constraints, solved one after the other ---------------------------------------------

  /** The one root a walk can be satisfied with, if its index has no more bits than the path. */
  method WurzelAus(c: Krypto, b: Feld, index: Feld, pfad: seq<Feld>) returns (r: T.Option<Feld>)
    requires Zwei(|pfad|) <= P
    ensures forall w: Feld :: FuehrtZu(c, b, index, pfad, w) <==> r == T.Some(w)
  {
    hide FuehrtZu, Hoch;
    forall w: Feld ensures FuehrtZu(c, b, index, pfad, w) <==> index < Zwei(|pfad|) && Hoch(c, b, index, pfad) == w {
      FuehrtZuGenau(c, b, index, pfad, w);
    }
    if index >= Zwei(|pfad|) { return T.None; }
    var bits := Bits(index, |pfad|);
    var cur := b;
    for i := 0 to |pfad|
      invariant HochBits(c, cur, bits[i..], pfad[i..]) == HochBits(c, b, bits, pfad)
    {
      var g := pfad[i];
      var l := if bits[i] then g else cur;
      var r := if bits[i] then cur else g;
      assert bits[i..][1..] == bits[i + 1..] && pfad[i..][1..] == pfad[i + 1..];
      cur := c.mimc([l, r]);
    }
    HochBitsIstHoch(c, b, index, pfad);
    r := T.Some(cur);
  }

  method In64Bit(v: Feld) returns (ok: bool)
    ensures ok <==> Hat64Bit(v)
  {
    Hat64BitGenau(v);
    ok := v < ZWEI64;
  }

  /** The one root a transfer can be satisfied with, if its constraints can be met at all. */
  method DefineTx(c: Krypto, wurzel: Feld, tx: TxZeuge) returns (r: T.Option<Feld>)
    requires Zwei(|tx.vonPfad|) <= P && Zwei(|tx.anPfad|) <= P
    ensures forall zwischen: Feld, neu: Feld :: TxErfuellt(c, wurzel, tx, zwischen, neu) ==> r == T.Some(neu)
    ensures r.Some? ==> exists zwischen: Feld :: TxErfuellt(c, wurzel, tx, zwischen, r.wert)
  {
    hide FuehrtZu, Hat64Bit, Blatt, Zwei;
    var w := WurzelAus(c, Blatt(c, tx.von), tx.vonIndex, tx.vonPfad);
    if w != T.Some(wurzel) { return T.None; }
    if !SigniertVon(c, tx.von, tx) { return T.None; }
    var betragPasst := In64Bit(tx.betrag);
    var restPasst := In64Bit(NeuVon(tx).guthaben);
    if !betragPasst || !restPasst || tx.vonIndex == tx.anIndex { return T.None; }
    var zwischen := WurzelAus(c, Blatt(c, NeuVon(tx)), tx.vonIndex, tx.vonPfad);
    w := WurzelAus(c, Blatt(c, tx.an), tx.anIndex, tx.anPfad);
    var neuPasst := In64Bit(NeuAn(tx).guthaben);
    if zwischen.None? || w != zwischen || !neuPasst { return T.None; }
    r := WurzelAus(c, Blatt(c, NeuAn(tx)), tx.anIndex, tx.anPfad);
    if r.Some? { assert TxErfuellt(c, wurzel, tx, zwischen.wert, r.wert); }
  }

  /** Threads the root through the bundle; accepts exactly the witnesses that meet every constraint. */
  method Define(c: Krypto, k: Kreis) returns (ok: bool)
    requires forall tx :: tx in k.txs ==> Zwei(|tx.vonPfad|) <= P && Zwei(|tx.anPfad|) <= P
    ensures ok <==> Erfuellt(c, k)
  {
    hide TxErfuellt, Zwei;
    var wurzel := k.altWurzel;
    assert k.txs[0..] == k.txs;
    for i := 0 to |k.txs|
      invariant TxsErfuellt(c, wurzel, k.txs[i..], k.neuWurzel) <==> Erfuellt(c, k)
    {
      assert k.txs[i] in k.txs && k.txs[i..][0] == k.txs[i] && k.txs[i..][1..] == k.txs[i + 1..];
      var neu := DefineTx(c, wurzel, k.txs[i]);
      if neu.None? { return false; }
      wurzel := neu.wert;
    }
    ok := wurzel == k.neuWurzel;
  }

  // ---- plain transfers --------------------------------------------------------------------------

  datatype Auftrag = Auftrag(von: nat, an: nat, betrag: nat)

  predicate Gedeckt64(ks: seq<Konto>) { forall i :: 0 <= i < |ks| ==> ks[i].guthaben < ZWEI64 }

  /** A transfer as one would book it by hand, in whole numbers. */
  function Ueberweise(ks: seq<Konto>, a: Auftrag): T.Option<seq<Konto>> {
    if a.von >= |ks| || a.an >= |ks| || a.von == a.an || a.betrag > ks[a.von].guthaben
      || ks[a.an].guthaben + a.betrag >= ZWEI64
    then T.None
    else
      var von, an := ks[a.von], ks[a.an];
      T.Some(ks[a.von := von.(guthaben := von.guthaben - a.betrag, nonce := Plus(von.nonce, 1))]
             [a.an := an.(guthaben := an.guthaben + a.betrag)])
  }

  function UeberweiseAlle(ks: seq<Konto>, auftraege: seq<Auftrag>): T.Option<seq<Konto>>
    decreases |auftraege|
  {
    if auftraege == [] then T.Some(ks)
    else match Ueberweise(ks, auftraege[0])
      case None => T.None
      case Some(ks') => UeberweiseAlle(ks', auftraege[1..])
  }

  function AuftragVon(tx: TxZeuge): Auftrag { Auftrag(tx.vonIndex, tx.anIndex, tx.betrag) }

  function AuftraegeVon(txs: seq<TxZeuge>): seq<Auftrag> {
    seq(|txs|, i requires 0 <= i < |txs| => AuftragVon(txs[i]))
  }

  function Guthabensumme(ks: seq<Konto>): int {
    if ks == [] then 0 else Guthabensumme(ks[..|ks| - 1]) + ks[|ks| - 1].guthaben
  }

  lemma {:induction false} SummeNach(ks: seq<Konto>, i: nat, k: Konto)
    requires i < |ks|
    ensures Guthabensumme(ks[i := k]) == Guthabensumme(ks) - ks[i].guthaben + k.guthaben
  {
    var n := |ks| - 1;
    if i < n {
      SummeNach(ks[..n], i, k);
      assert ks[i := k][..n] == ks[..n][i := k];
    } else {
      assert ks[i := k][..n] == ks[..n];
    }
  }

  /** A plain transfer neither makes nor destroys money, nor touches a key. */
  lemma UeberweiseErhaelt(ks: seq<Konto>, a: Auftrag)
    requires Gedeckt64(ks) && Ueberweise(ks, a).Some?
    ensures var ks' := Ueberweise(ks, a).wert;
      && |ks'| == |ks| && Gedeckt64(ks') && Guthabensumme(ks') == Guthabensumme(ks)
      && forall i :: 0 <= i < |ks| ==> ks'[i].x == ks[i].x && ks'[i].y == ks[i].y
  {
    var von, an := ks[a.von], ks[a.an];
    var v := von.(guthaben := von.guthaben - a.betrag, nonce := Plus(von.nonce, 1));
    SummeNach(ks, a.von, v);
    SummeNach(ks[a.von := v], a.an, an.(guthaben := an.guthaben + a.betrag));
  }

  /** Every transfer is signed by its sender over indices, amount and the nonce of that moment. */
  ghost predicate AlleSigniert(c: Krypto, ks: seq<Konto>, txs: seq<TxZeuge>)
    decreases |txs|
  {
    txs != [] ==>
      var tx := txs[0];
      && tx.vonIndex < |ks|
      && SigniertVon(c, ks[tx.vonIndex], tx)
      && Ueberweise(ks, AuftragVon(tx)).Some?
      && AlleSigniert(c, Ueberweise(ks, AuftragVon(tx)).wert, txs[1..])
  }

  // ---- soundness --------------------------------------------------------------------------------

  function Blaetter(c: Krypto, ks: seq<Konto>): (xs: seq<Feld>)
    ensures |xs| == |ks|
  {
    seq(|ks|, i requires 0 <= i < |ks| => Blatt(c, ks[i]))
  }

  function Wurzel(c: Krypto, ks: seq<Konto>, t: nat): Feld
    requires |ks| == Zwei(t)
  {
    Spitze(c, Blaetter(c, ks), t)
  }

  /** U holds every hash input of the tree over ks. */
  ghost predicate ZustandIn(c: Krypto, U: iset<seq<Feld>>, ks: seq<Konto>, t: nat)
    requires |ks| == Zwei(t)
  {
    && BaumIn(c, U, Blaetter(c, ks), t)
    && forall i :: 0 <= i < |ks| ==> BlattUrbild(ks[i]) in U
  }

  ghost predicate FussIn(c: Krypto, U: iset<seq<Feld>>, k: Konto, i: nat, pfad: seq<Feld>) {
    BlattUrbild(k) in U && WegIn(c, U, Blatt(c, k), i, pfad)
  }

  /** U holds every hash input of the witness. */
  ghost predicate ZeugeIn(c: Krypto, U: iset<seq<Feld>>, tx: TxZeuge) {
    && FussIn(c, U, tx.von, tx.vonIndex, tx.vonPfad) && FussIn(c, U, NeuVon(tx), tx.vonIndex, tx.vonPfad)
    && FussIn(c, U, tx.an, tx.anIndex, tx.anPfad) && FussIn(c, U, NeuAn(tx), tx.anIndex, tx.anPfad)
  }

  lemma BlaetterNach(c: Krypto, ks: seq<Konto>, i: nat, k: Konto)
    requires i < |ks|
    ensures Blaetter(c, ks[i := k]) == Blaetter(c, ks)[i := Blatt(c, k)]
  {
  }

  /** An account under a root, with its path, is that of the state. */
  lemma KontoBindet(c: Krypto, U: iset<seq<Feld>>, ks: seq<Konto>, t: nat, k: Konto, i: Feld, pfad: seq<Feld>)
    requires |ks| == Zwei(t) <= P && |pfad| == t
    requires Kollisionsfrei(c, U) && ZustandIn(c, U, ks, t) && FussIn(c, U, k, i, pfad)
    requires FuehrtZu(c, Blatt(c, k), i, pfad, Wurzel(c, ks, t))
    ensures i < |ks| && k == ks[i] && pfad == Pfad(c, Blaetter(c, ks), i, t)
  {
    hide Spitze, BaumIn, WegIn, Blaetter, FuehrtZu;
    FuehrtZuGenau(c, Blatt(c, k), i, pfad, Wurzel(c, ks, t));
    PfadBindet(c, U, Blaetter(c, ks), t, Blatt(c, k), i, pfad);
    assert Blatt(c, k) == Blatt(c, ks[i]) by { BlattAn(c, ks, i); }
    assert BlattUrbild(k) in U && BlattUrbild(ks[i]) in U;
    UrbildBindet(k, ks[i]);
  }

  lemma BlattAn(c: Krypto, ks: seq<Konto>, i: nat)
    requires i < |ks|
    ensures Blaetter(c, ks)[i] == Blatt(c, ks[i])
  {
  }

  lemma UrbildBindet(k: Konto, k': Konto)
    ensures BlattUrbild(k) == BlattUrbild(k') ==> k == k'
  {
    if BlattUrbild(k) == BlattUrbild(k') {
      assert BlattUrbild(k)[0] == BlattUrbild(k')[0] && BlattUrbild(k)[1] == BlattUrbild(k')[1]
        && BlattUrbild(k)[2] == BlattUrbild(k')[2] && BlattUrbild(k)[3] == BlattUrbild(k')[3];
    }
  }

  /** Replacing account i along its path leads to the root of the changed state. */
  lemma KontoErsetzt(c: Krypto, U: iset<seq<Feld>>, ks: seq<Konto>, t: nat, k: Konto, i: Feld, pfad: seq<Feld>, r: Feld)
    requires |ks| == Zwei(t) <= P && i < |ks| && ZustandIn(c, U, ks, t) && FussIn(c, U, k, i, pfad)
    requires pfad == Pfad(c, Blaetter(c, ks), i, t) && FuehrtZu(c, Blatt(c, k), i, pfad, r)
    ensures ZustandIn(c, U, ks[i := k], t) && r == Wurzel(c, ks[i := k], t)
  {
    hide Spitze, BaumIn, WegIn, Blaetter, FuehrtZu, Pfad;
    FuehrtZuGenau(c, Blatt(c, k), i, pfad, r);
    PfadFuehrtHoch(c, Blaetter(c, ks), i, Blatt(c, k), t);
    BaumInNach(c, U, Blaetter(c, ks), t, Blatt(c, k), i);
    BlaetterNach(c, ks, i, k);
  }

  /** One satisfied transfer is one plain transfer. */
  lemma TxKorrekt(c: Krypto, U: iset<seq<Feld>>, ks: seq<Konto>, t: nat, tx: TxZeuge, zwischen: Feld, neu: Feld)
    requires |ks| == Zwei(t) <= P && Tief(tx, t) && Gedeckt64(ks)
    requires Kollisionsfrei(c, U) && ZustandIn(c, U, ks, t) && ZeugeIn(c, U, tx)
    requires TxErfuellt(c, Wurzel(c, ks, t), tx, zwischen, neu)
    ensures tx.vonIndex < |ks| && tx.anIndex < |ks| && tx.von == ks[tx.vonIndex] && tx.an == ks[tx.anIndex]
    ensures Ueberweise(ks, AuftragVon(tx)).Some?
    ensures var ks' := Ueberweise(ks, AuftragVon(tx)).wert;
      |ks'| == |ks| && neu == Wurzel(c, ks', t) && ZustandIn(c, U, ks', t)
    ensures var ks1 := ks[tx.vonIndex := NeuVon(tx)];
      zwischen == Wurzel(c, ks1, t) && ZustandIn(c, U, ks1, t)
  {
    hide Spitze, BaumIn, WegIn, Blaetter, FuehrtZu, Pfad, Hat64Bit, Kollisionsfrei, ZustandIn, FussIn, Wurzel, Blatt;
    KontoBindet(c, U, ks, t, tx.von, tx.vonIndex, tx.vonPfad);
    var ks1 := ks[tx.vonIndex := NeuVon(tx)];
    KontoErsetzt(c, U, ks, t, NeuVon(tx), tx.vonIndex, tx.vonPfad, zwischen);
    KontoBindet(c, U, ks1, t, tx.an, tx.anIndex, tx.anPfad);
    KontoErsetzt(c, U, ks1, t, NeuAn(tx), tx.anIndex, tx.anPfad, neu);
    Hat64BitGenau(tx.betrag);
    Hat64BitGenau(NeuVon(tx).guthaben);
    Hat64BitGenau(NeuAn(tx).guthaben);
    KeinUmlauf(tx.von.guthaben, tx.an.guthaben, tx.betrag);
  }

  /** In 64 bits the field neither borrows nor carries around unnoticed. */
  lemma KeinUmlauf(g: Feld, h: Feld, betrag: Feld)
    requires g < ZWEI64 && h < ZWEI64 && betrag < ZWEI64
    ensures Minus(g, betrag) < ZWEI64 <==> betrag <= g
    ensures betrag <= g ==> Minus(g, betrag) == g - betrag
    ensures Plus(h, betrag) == h + betrag
  {
    if betrag > g { assert (g - betrag) % P == g - betrag + P; }
  }

  /** Whatever witness satisfies the circuit from the root of a state: its new root is that
      of the state after just these transfers, each covered, signed and between different
      accounts, with the sender's nonce one up and no money made or lost. */
  lemma {:induction false} KreisKorrekt(c: Krypto, U: iset<seq<Feld>>, ks: seq<Konto>, t: nat, txs: seq<TxZeuge>,
                                        ende: Feld)
    requires |ks| == Zwei(t) <= P && Gedeckt64(ks) && forall tx :: tx in txs ==> Tief(tx, t) && ZeugeIn(c, U, tx)
    requires Kollisionsfrei(c, U) && ZustandIn(c, U, ks, t)
    requires TxsErfuellt(c, Wurzel(c, ks, t), txs, ende)
    ensures UeberweiseAlle(ks, AuftraegeVon(txs)).Some? && AlleSigniert(c, ks, txs)
    ensures var ks' := UeberweiseAlle(ks, AuftraegeVon(txs)).wert;
      |ks'| == |ks| && ende == Wurzel(c, ks', t) && Guthabensumme(ks') == Guthabensumme(ks)
    decreases |txs|
  {
    hide Wurzel, ZustandIn, ZeugeIn, Kollisionsfrei, Gedeckt64, Ueberweise, Guthabensumme, FuehrtZu;
    if txs != [] {
      var tx := txs[0];
      var zwischen: Feld, neu: Feld :|
        TxErfuellt(c, Wurzel(c, ks, t), tx, zwischen, neu) && TxsErfuellt(c, neu, txs[1..], ende);
      TxKorrekt(c, U, ks, t, tx, zwischen, neu);
      UeberweiseErhaelt(ks, AuftragVon(tx));
      KreisKorrekt(c, U, Ueberweise(ks, AuftragVon(tx)).wert, t, txs[1..], ende);
      assert AuftraegeVon(txs)[1..] == AuftraegeVon(txs[1..]);
    }
  }
}
