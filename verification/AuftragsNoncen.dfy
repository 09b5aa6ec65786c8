/**
 Order nonces: what a node remembers order by order when it admits them is what every
 node computes from the block.
 */
module AuftragsNoncen {
  import opened Typen
  import A = Auftraege

  type Nonce = A.AuftragsNonce

  /** Next allowed order nonce of each known account, by normalised address. */
  type Konten = map<string, Int64>

  const LETZTE: Int64 := 0x7FFF_FFFF_FFFF_FFFF

  // ---- in the block ----------------------------------------------------------------------

  function Naechste(konten: Konten, stand: map<string, Int64>, a: string): Int64 {
    if a in stand then stand[a] else if a in konten then konten[a] else 0
  }

  /** What follows the nonces of a block, unless one of them is used up. */
  function BlockNoncen(konten: Konten, liste: seq<Nonce>): Option<map<string, Int64>> {
    if liste == [] then Some(map[])
    else
      var n := |liste| - 1;
      match BlockNoncen(konten, liste[..n])
      case None => None
      case Some(stand) =>
        var u := liste[n];
        if u.nonce < Naechste(konten, stand, u.absender) then None else Some(stand[u.absender := Wrap(u.nonce + 1)])
  }

  /** New values enter known accounts, and only upwards. */
  function Gesetzt(konten: Konten, neu: map<string, Int64>): Konten {
    map a | a in konten :: if a in neu && neu[a] > konten[a] then neu[a] else konten[a]
  }

  // ---- at admission ------------------------------------------------------------------------

  function Gemerkt(konten: Konten, u: Nonce): Option<Konten> {
    if u.absender !in konten || u.nonce < konten[u.absender] then None
    else Some(konten[u.absender := Wrap(u.nonce + 1)])
  }

  function AlleGemerkt(konten: Konten, liste: seq<Nonce>): Option<Konten> {
    if liste == [] then Some(konten)
    else
      match AlleGemerkt(konten, liste[..|liste| - 1])
      case None => None
      case Some(k) => Gemerkt(k, liste[|liste| - 1])
  }

  /** Admission of whole transactions: those without a nonce pass. */
  function TxGemerkt(r: A.Regeln, konten: Konten, tx: A.Transaktion): Option<Konten> {
    if tx.nachweis.None? || !A.NutztNonce(tx.typ) then Some(konten)
    else Gemerkt(konten, A.AuftragsNonce(r.klein(tx.wallet), tx.nachweis.wert.nonce))
  }

  function AlleTxGemerkt(r: A.Regeln, konten: Konten, txs: seq<A.Transaktion>): Option<Konten> {
    if txs == [] then Some(konten)
    else
      match AlleTxGemerkt(r, konten, txs[..|txs| - 1])
      case None => None
      case Some(k) => TxGemerkt(r, k, txs[|txs| - 1])
  }

  // ---- the two agree -----------------------------------------------------------------------

  predicate Bekannt(konten: Konten, liste: seq<Nonce>) {
    forall i :: 0 <= i < |liste| ==> liste[i].absender in konten
  }

  function Ueberlagert(konten: Konten, neu: map<string, Int64>): Konten {
    map a | a in konten :: if a in neu then neu[a] else konten[a]
  }

  /** The last nonce a list holds for an account in it. */
  function LetzteNonce(liste: seq<Nonce>, a: string): Int64 {
    if liste == [] then 0
    else if liste[|liste| - 1].absender == a then liste[|liste| - 1].nonce
    else LetzteNonce(liste[..|liste| - 1], a)
  }

  /** Order by order is accepted exactly if the block is and every sender is known; what is
      remembered is what the block computes. */
  lemma {:induction false} MerkenIstBlock(konten: Konten, liste: seq<Nonce>)
    ensures AlleGemerkt(konten, liste).Some? <==> BlockNoncen(konten, liste).Some? && Bekannt(konten, liste)
    ensures AlleGemerkt(konten, liste).Some? ==>
      AlleGemerkt(konten, liste).wert == Ueberlagert(konten, BlockNoncen(konten, liste).wert)
  {
    hide Wrap;
    if liste != [] {
      var n := |liste| - 1;
      MerkenIstBlock(konten, liste[..n]);
      assert Bekannt(konten, liste) <==> Bekannt(konten, liste[..n]) && liste[n].absender in konten;
    } else {
      assert Ueberlagert(konten, map[]) == konten;
    }
  }

  function Absender(liste: seq<Nonce>): set<string> {
    if liste == [] then {} else Absender(liste[..|liste| - 1]) + {liste[|liste| - 1].absender}
  }

  lemma {:induction false} AbsenderAn(liste: seq<Nonce>, i: nat)
    requires i < |liste|
    ensures liste[i].absender in Absender(liste)
  {
    var n := |liste| - 1;
    if i < n {
      assert liste[..n][i] == liste[i];
      AbsenderAn(liste[..n], i);
    }
  }

  lemma {:induction false} AbsenderAus(liste: seq<Nonce>, a: string) returns (i: nat)
    requires a in Absender(liste)
    ensures i < |liste| && liste[i].absender == a
  {
    i := |liste| - 1;
    if liste[i].absender != a {
      var j := AbsenderAus(liste[..i], a);
      assert liste[..i][j] == liste[j];
      i := j;
    }
  }

  /** An accepted list is an accepted list and one more nonce that is not used up. */
  lemma EinSchritt(konten: Konten, liste: seq<Nonce>)
    requires liste != [] && BlockNoncen(konten, liste).Some?
    ensures var u := liste[|liste| - 1]; var vorne := BlockNoncen(konten, liste[..|liste| - 1]);
      && vorne.Some? && u.nonce >= Naechste(konten, vorne.wert, u.absender)
      && BlockNoncen(konten, liste).wert == vorne.wert[u.absender := Wrap(u.nonce + 1)]
  {
  }

  lemma {:induction false} StandSchluessel(konten: Konten, liste: seq<Nonce>)
    requires BlockNoncen(konten, liste).Some?
    ensures BlockNoncen(konten, liste).wert.Keys == Absender(liste)
  {
    hide Wrap;
    if liste != [] { StandSchluessel(konten, liste[..|liste| - 1]); }
  }

  lemma {:induction false} StandWert(konten: Konten, liste: seq<Nonce>, a: string)
    requires BlockNoncen(konten, liste).Some? && a in BlockNoncen(konten, liste).wert
    ensures BlockNoncen(konten, liste).wert[a] == Wrap(LetzteNonce(liste, a) + 1)
  {
    hide Wrap;
    if liste != [] && liste[|liste| - 1].absender != a { StandWert(konten, liste[..|liste| - 1], a); }
  }

  /** Taking over only upwards loses nothing exactly if nothing went down. */
  lemma GesetztIstUeberlagert(konten: Konten, neu: map<string, Int64>)
    ensures Gesetzt(konten, neu) == Ueberlagert(konten, neu)
      <==> forall a :: a in neu && a in konten ==> neu[a] >= konten[a]
  {
    if Gesetzt(konten, neu) == Ueberlagert(konten, neu) {
      forall a | a in neu && a in konten ensures neu[a] >= konten[a] {
        assert Gesetzt(konten, neu)[a] == Ueberlagert(konten, neu)[a];
      }
    }
  }

  /** No account ends below where it began. */
  ghost predicate NichtsSinkt(konten: Konten, liste: seq<Nonce>)
    requires Bekannt(konten, liste)
  {
    forall i :: 0 <= i < |liste| ==> Wrap(LetzteNonce(liste, liste[i].absender) + 1) >= konten[liste[i].absender]
  }

  lemma NichtsSinktGenau(konten: Konten, liste: seq<Nonce>)
    requires BlockNoncen(konten, liste).Some? && Bekannt(konten, liste)
    ensures var neu := BlockNoncen(konten, liste).wert;
      NichtsSinkt(konten, liste) <==> forall a :: a in neu && a in konten ==> neu[a] >= konten[a]
  {
    hide Wrap, LetzteNonce, BlockNoncen;
    var neu := BlockNoncen(konten, liste).wert;
    StandSchluessel(konten, liste);
    forall i | 0 <= i < |liste|
      ensures liste[i].absender in neu && neu[liste[i].absender] == Wrap(LetzteNonce(liste, liste[i].absender) + 1)
    {
      AbsenderAn(liste, i);
      StandWert(konten, liste, liste[i].absender);
    }
    forall a | a in neu ensures exists i :: 0 <= i < |liste| && liste[i].absender == a {
      var i := AbsenderAus(liste, a);
    }
  }

  /** The block leaves the nonces that admission left exactly if no account ends below where it
      began; that is so unless the largest of all nonces was used. */
  lemma BlockSetztGemerktes(konten: Konten, liste: seq<Nonce>)
    requires AlleGemerkt(konten, liste).Some?
    ensures BlockNoncen(konten, liste).Some? && Bekannt(konten, liste)
    ensures Gesetzt(konten, BlockNoncen(konten, liste).wert) == AlleGemerkt(konten, liste).wert
      <==> NichtsSinkt(konten, liste)
    ensures OhneLetzte(liste) ==> NichtsSinkt(konten, liste)
  {
    hide AlleGemerkt, BlockNoncen, NichtsSinkt, Gesetzt, Ueberlagert;
    MerkenIstBlock(konten, liste);
    GesetztIstUeberlagert(konten, BlockNoncen(konten, liste).wert);
    NichtsSinktGenau(konten, liste);
    if OhneLetzte(liste) {
      forall a | a in BlockNoncen(konten, liste).wert && a in konten
        ensures BlockNoncen(konten, liste).wert[a] >= konten[a]
      {
        StandWaechst(konten, liste, a);
      }
    }
  }

  predicate OhneLetzte(liste: seq<Nonce>) { forall i :: 0 <= i < |liste| ==> liste[i].nonce < LETZTE }

  lemma WrapNach(n: Int64)
    requires n < LETZTE
    ensures Wrap(n + 1) == n + 1
  {
  }

  lemma {:induction false} StandWaechst(konten: Konten, liste: seq<Nonce>, a: string)
    requires BlockNoncen(konten, liste).Some? && OhneLetzte(liste) && a in BlockNoncen(konten, liste).wert
    ensures a in konten ==> BlockNoncen(konten, liste).wert[a] > konten[a]
    ensures forall i :: 0 <= i < |liste| && liste[i].absender == a ==>
      liste[i].nonce < BlockNoncen(konten, liste).wert[a]
  {
    hide Wrap, BlockNoncen;
    if liste == [] {
      assert BlockNoncen(konten, liste) == Some(map[]) by { LeererStand(konten); }
    } else {
      var n := |liste| - 1;
      EinSchritt(konten, liste);
      var vorne := BlockNoncen(konten, liste[..n]).wert;
      WrapNach(liste[n].nonce);
      if a in vorne { StandWaechst(konten, liste[..n], a); } else { StandSchluessel(konten, liste[..n]); }
      forall i | 0 <= i < n && liste[i].absender == a ensures liste[i].nonce < BlockNoncen(konten, liste).wert[a] {
        assert liste[..n][i] == liste[i];
        AbsenderAn(liste[..n], i);
      }
    }
  }

  lemma LeererStand(konten: Konten)
    ensures BlockNoncen(konten, []) == Some(map[])
  {
  }

  /** The largest nonce is the exception: admission forgets it, the block ignores it. */
  lemma LetzteNonceBeispiel(a: string)
    ensures var konten: Konten := map[a := 0]; var liste := [A.AuftragsNonce(a, LETZTE)];
      && AlleGemerkt(konten, liste) == Some(map[a := -ZWEI63])
      && BlockNoncen(konten, liste).Some? && Gesetzt(konten, BlockNoncen(konten, liste).wert) == konten
  {
    var konten: Konten, liste := map[a := 0], [A.AuftragsNonce(a, LETZTE)];
    assert liste[..0] == [];
    assert Wrap(LETZTE + 1) == -ZWEI63;
    assert AlleGemerkt(konten, liste[..0]) == Some(konten);
    assert AlleGemerkt(konten, liste) == Gemerkt(konten, liste[0]);
    assert konten[a := -ZWEI63] == map[a := -ZWEI63];
    assert BlockNoncen(konten, liste) == Some(map[a := -ZWEI63]);
  }

  // ---- whole transactions --------------------------------------------------------------------

  /** What a block's check lists is what admission remembered, transaction by transaction. */
  lemma {:induction false} TxMerkenIstListe(r: A.Regeln, konten: Konten, txs: seq<A.Transaktion>, blockZeit: Int64)
    requires A.DerReihe(r, txs, blockZeit).Ok?
    ensures AlleTxGemerkt(r, konten, txs) == AlleGemerkt(konten, A.DerReihe(r, txs, blockZeit).liste)
  {
    hide A.BrauchtNachweis, A.NutztNonce, A.Pruefe, Gemerkt;
    if txs != [] {
      var n := |txs| - 1;
      TxMerkenIstListe(r, konten, txs[..n], blockZeit);
      NonceEinzeln(r, txs[n], blockZeit);
      var vorne := A.DerReihe(r, txs[..n], blockZeit).liste;
      var dazu := A.NonceVon(r, txs[n]);
      if A.BrauchtNachweis(txs[n].typ) && dazu != [] {
        assert (vorne + dazu)[..|vorne|] == vorne && (vorne + dazu)[|vorne|] == dazu[0];
      } else if A.BrauchtNachweis(txs[n].typ) {
        assert vorne + dazu == vorne;
      }
    }
  }

  lemma NonceEinzeln(r: A.Regeln, tx: A.Transaktion, blockZeit: Int64)
    ensures A.NutztNonce(tx.typ) ==> A.BrauchtNachweis(tx.typ)
    ensures A.NonceVon(r, tx) ==
      if A.NutztNonce(tx.typ) && tx.nachweis.Some?
      then [A.AuftragsNonce(r.klein(tx.wallet), tx.nachweis.wert.nonce)] else []
  {
    hide A.NutztNonce;
  }

  /** A block of orders that were admitted one by one and carry valid proofs is accepted from the
      state admission began with, and leaves the nonces admission left exactly if none sinks. */
  lemma AngenommeneImBlock(r: A.Regeln, konten: Konten, txs: seq<A.Transaktion>, blockZeit: Int64)
    requires A.DerReihe(r, txs, blockZeit).Ok? && AlleTxGemerkt(r, konten, txs).Some?
    ensures var liste := A.DerReihe(r, txs, blockZeit).liste; var neu := BlockNoncen(konten, liste);
      && neu.Some? && Bekannt(konten, liste)
      && (Gesetzt(konten, neu.wert) == AlleTxGemerkt(r, konten, txs).wert <==> NichtsSinkt(konten, liste))
      && (OhneLetzte(liste) ==> NichtsSinkt(konten, liste))
  {
    hide BlockNoncen, NichtsSinkt, Gesetzt, AlleGemerkt;
    TxMerkenIstListe(r, konten, txs, blockZeit);
    BlockSetztGemerktes(konten, A.DerReihe(r, txs, blockZeit).liste);
  }

  // ---- at most once ------------------------------------------------------------------------------

  /** The state after a chain of accepted blocks. */
  function Kette(konten: Konten, listen: seq<seq<Nonce>>): Option<Konten> {
    if listen == [] then Some(konten)
    else
      match Kette(konten, listen[..|listen| - 1])
      case None => None
      case Some(k) =>
        match BlockNoncen(k, listen[|listen| - 1])
        case None => None
        case Some(neu) => Some(Gesetzt(k, neu))
  }

  /** The nonces of a in a block, and through a chain of blocks, in order. */
  function NoncenVon(liste: seq<Nonce>, a: string): seq<Int64> {
    if liste == [] then []
    else
      var u := liste[|liste| - 1];
      NoncenVon(liste[..|liste| - 1], a) + (if u.absender == a then [u.nonce] else [])
  }

  function KettenNoncen(listen: seq<seq<Nonce>>, a: string): seq<Int64> {
    if listen == [] then []
    else KettenNoncen(listen[..|listen| - 1], a) + NoncenVon(listen[|listen| - 1], a)
  }

  predicate Steigend(xs: seq<Int64>) { forall i, j :: 0 <= i < j < |xs| ==> xs[i] < xs[j] }

  /** The largest nonce stands last if anywhere. */
  predicate LetzteNurZuletzt(xs: seq<Int64>) { forall i :: 0 <= i < |xs| - 1 ==> xs[i] != LETZTE }

  lemma SteigendDannLetzteZuletzt(xs: seq<Int64>)
    requires Steigend(xs)
    ensures LetzteNurZuletzt(xs)
  {
    forall i | 0 <= i < |xs| - 1 ensures xs[i] != LETZTE { assert xs[i] < xs[i + 1]; }
  }

  lemma SteigendMit(xs: seq<Int64>, x: Int64)
    requires Steigend(xs) && (xs != [] ==> xs[|xs| - 1] < x)
    ensures Steigend(xs + [x])
  {
    forall i | 0 <= i < |xs| ensures xs[i] < x {}
  }

  /** What an accepted block says of one sender whose largest nonce, if any, comes last. */
  lemma {:induction false} BlockFuerEinen(konten: Konten, liste: seq<Nonce>, a: string)
    requires BlockNoncen(konten, liste).Some? && LetzteNurZuletzt(NoncenVon(liste, a))
    ensures var xs, stand := NoncenVon(liste, a), BlockNoncen(konten, liste).wert;
      && Steigend(xs) && (a in stand <==> xs != [])
      && (xs != [] ==> xs[0] >= Naechste(konten, map[], a) && stand[a] == Wrap(xs[|xs| - 1] as int + 1))
  {
    hide Wrap, Steigend;
    if liste == [] {
      LeererStand(konten);
      Leersteigend();
    } else {
      hide BlockNoncen;
      var n := |liste| - 1;
      var vorne, xs := NoncenVon(liste[..n], a), NoncenVon(liste, a);
      EinSchritt(konten, liste);
      assert LetzteNurZuletzt(vorne) by {
        forall i | 0 <= i < |vorne| - 1 ensures vorne[i] != LETZTE { assert xs[i] == vorne[i]; }
      }
      BlockFuerEinen(konten, liste[..n], a);
      if liste[n].absender == a {
        if vorne != [] {
          assert xs[|vorne| - 1] == vorne[|vorne| - 1] != LETZTE;
          WrapNach(vorne[|vorne| - 1]);
        }
        SteigendMit(vorne, liste[n].nonce);
        assert xs == vorne + [liste[n].nonce];
      } else {
        assert xs == vorne;
      }
    }
  }

  lemma Leersteigend()
    ensures Steigend([])
  {
  }

  /** Within an accepted block the nonces of a sender rise exactly if the largest of all nonces is,
      if anywhere, his last one. */
  lemma BlockSteigt(konten: Konten, liste: seq<Nonce>, a: string)
    requires BlockNoncen(konten, liste).Some?
    ensures Steigend(NoncenVon(liste, a)) <==> LetzteNurZuletzt(NoncenVon(liste, a))
  {
    hide Steigend, LetzteNurZuletzt, NoncenVon, BlockNoncen;
    if LetzteNurZuletzt(NoncenVon(liste, a)) {
      BlockFuerEinen(konten, liste, a);
    } else if Steigend(NoncenVon(liste, a)) {
      SteigendDannLetzteZuletzt(NoncenVon(liste, a));
    }
  }

  lemma VorneUndHinten(xs: seq<Int64>, ys: seq<Int64>)
    requires LetzteNurZuletzt(xs + ys)
    ensures LetzteNurZuletzt(xs) && LetzteNurZuletzt(ys) && (xs != [] && ys != [] ==> xs[|xs| - 1] != LETZTE)
  {
    var zs := xs + ys;
    forall i | 0 <= i < |xs| - 1 ensures xs[i] != LETZTE { assert zs[i] == xs[i]; }
    forall i | 0 <= i < |ys| - 1 ensures ys[i] != LETZTE { assert zs[|xs| + i] == ys[i]; }
    if xs != [] && ys != [] { assert zs[|xs| - 1] == xs[|xs| - 1]; }
  }

  lemma SteigendVerkettet(xs: seq<Int64>, ys: seq<Int64>)
    requires Steigend(xs) && Steigend(ys) && (xs != [] && ys != [] ==> xs[|xs| - 1] < ys[0])
    ensures Steigend(xs + ys)
  {
    var zs := xs + ys;
    forall i, j | 0 <= i < j < |zs| ensures zs[i] < zs[j] {
      if i < |xs| <= j {
        assert xs[i] <= xs[|xs| - 1] && ys[0] <= ys[j - |xs|];
      }
    }
  }

  /** Where a known sender stands after a chain in which his largest nonce, if any, comes last. */
  lemma {:induction false} KetteFuerEinen(konten: Konten, listen: seq<seq<Nonce>>, a: string)
    requires Kette(konten, listen).Some? && a in konten && LetzteNurZuletzt(KettenNoncen(listen, a))
    ensures var xs, k := KettenNoncen(listen, a), Kette(konten, listen).wert;
      && Steigend(xs) && a in k
      && (xs == [] ==> k[a] == konten[a])
      && (xs != [] && xs[|xs| - 1] != LETZTE ==> k[a] == xs[|xs| - 1] + 1)
  {
    hide Wrap, Steigend, LetzteNurZuletzt, NoncenVon, BlockNoncen;
    if listen == [] {
      Leersteigend();
    } else {
      var n := |listen| - 1;
      var xs, ys := KettenNoncen(listen[..n], a), NoncenVon(listen[n], a);
      VorneUndHinten(xs, ys);
      KetteFuerEinen(konten, listen[..n], a);
      var k := Kette(konten, listen[..n]).wert;
      BlockFuerEinen(k, listen[n], a);
      if ys != [] {
        SteigendVerkettet(xs, ys);
        var y := ys[|ys| - 1];
        assert ys[0] <= y by { ErsteKleinste(ys); }
        if y != LETZTE { WrapNach(y); }
      } else {
        assert xs + ys == xs;
      }
    }
  }

  lemma ErsteKleinste(xs: seq<Int64>)
    requires Steigend(xs) && xs != []
    ensures xs[0] <= xs[|xs| - 1]
  {
  }

  /** Through any chain of accepted blocks the nonces of a known sender strictly rise, exactly if
      the largest of all nonces is, if anywhere, his last one. */
  lemma KetteSteigt(konten: Konten, listen: seq<seq<Nonce>>, a: string)
    requires Kette(konten, listen).Some? && a in konten
    ensures Steigend(KettenNoncen(listen, a)) <==> LetzteNurZuletzt(KettenNoncen(listen, a))
  {
    hide Steigend, LetzteNurZuletzt, KettenNoncen, Kette;
    if LetzteNurZuletzt(KettenNoncen(listen, a)) {
      KetteFuerEinen(konten, listen, a);
    } else if Steigend(KettenNoncen(listen, a)) {
      SteigendDannLetzteZuletzt(KettenNoncen(listen, a));
    }
  }

  /** Then no nonce of that sender is accepted twice, whatever other senders do. */
  lemma KeineNonceZweimal(konten: Konten, listen: seq<seq<Nonce>>, a: string)
    requires Kette(konten, listen).Some? && a in konten && LetzteNurZuletzt(KettenNoncen(listen, a))
    ensures Verschieden(KettenNoncen(listen, a))
  {
    hide Kette, KettenNoncen, LetzteNurZuletzt;
    KetteSteigt(konten, listen, a);
  }

  // ---- where that ends ---------------------------------------------------------------------------

  lemma EinzelnerBlock(konten: Konten, u: Nonce)
    ensures BlockNoncen(konten, [u]) ==
      if u.nonce < Naechste(konten, map[], u.absender) then None else Some(map[u.absender := Wrap(u.nonce + 1)])
  {
    hide Wrap;
    assert [u][..0] == [];
    LeererStand(konten);
    var leer: map<string, Int64> := map[];
    assert leer[u.absender := Wrap(u.nonce + 1)] == map[u.absender := Wrap(u.nonce + 1)];
  }

  /** A block of one order leaves the state it was accepted from exactly for the largest nonce, or
      if the sender is unknown. */
  lemma OhneSpurGenau(konten: Konten, u: Nonce)
    requires BlockNoncen(konten, [u]).Some?
    ensures Gesetzt(konten, BlockNoncen(konten, [u]).wert) == konten <==> u.nonce == LETZTE || u.absender !in konten
  {
    EinzelnerBlock(konten, u);
    var neu := BlockNoncen(konten, [u]).wert;
    if u.nonce == LETZTE {
      assert Wrap(LETZTE + 1) == -ZWEI63;
    } else {
      WrapNach(u.nonce);
      if u.absender in konten { assert Gesetzt(konten, neu)[u.absender] == u.nonce + 1; }
    }
  }

  /** So such an order is accepted in as many blocks as one likes. */
  lemma {:induction false} BeliebigOft(konten: Konten, u: Nonce, n: nat)
    requires BlockNoncen(konten, [u]).Some? && (u.nonce == LETZTE || u.absender !in konten)
    ensures Kette(konten, seq(n, _ => [u])) == Some(konten)
  {
    hide BlockNoncen, Gesetzt;
    var listen := seq(n, _ => [u]);
    if n > 0 {
      BeliebigOft(konten, u, n - 1);
      assert listen[..n - 1] == seq(n - 1, _ => [u]);
      OhneSpurGenau(konten, u);
    }
  }

  /** The largest nonce in block after block, and used nonces again behind it in one block. */
  lemma WiederholungBeispiel(a: string)
    ensures var u := [A.AuftragsNonce(a, LETZTE)]; Kette(map[a := 0], [u, u, u]) == Some(map[a := 0])
    ensures BlockNoncen(map[a := 5], [A.AuftragsNonce(a, 7), A.AuftragsNonce(a, LETZTE), A.AuftragsNonce(a, 7)]).Some?
  {
    var u, konten: Konten := A.AuftragsNonce(a, LETZTE), map[a := 0];
    EinzelnerBlock(konten, u);
    BeliebigOft(konten, u, 3);
    assert seq(3, _ => [u]) == [[u], [u], [u]];
    var x := A.AuftragsNonce(a, 7);
    var liste := [x, u, x];
    assert liste[..2][..1] == [x] && liste[..2] == [x, u];
    EinzelnerBlock(map[a := 5], x);
    assert Wrap(LETZTE + 1) == -ZWEI63;
    assert BlockNoncen(map[a := 5], liste[..2]).Some?;
  }

  /** The check of signed orders lets the largest nonce through like any other. */
  lemma LetzteNonceBestehtPruefung(r: A.Regeln, tx: A.Transaktion, blockZeit: Int64)
    requires A.NutztNonce(tx.typ) && tx.nachweis.Some? && tx.nachweis.wert.nonce == LETZTE
    requires A.ZeitPasst(tx.nachweis.wert.zeit, blockZeit) && r.unterschrieben(tx)
    ensures A.DerReihe(r, [tx], blockZeit) == A.Ok([A.AuftragsNonce(r.klein(tx.wallet), LETZTE)])
  {
    hide A.NutztNonce, A.ZeitPasst;
    assert [tx][..0] == [];
    NonceEinzeln(r, tx, blockZeit);
  }

  // ---- the chain state, changed in place ------------------------------------------------------------

  class Kettenzustand {
    var konten: Konten

    constructor (konten: Konten)
      ensures this.konten == konten
    {
      this.konten := konten;
    }

    method NaechsteNoncenFuerBlock(liste: seq<Nonce>) returns (r: Option<map<string, Int64>>)
      ensures r == BlockNoncen(konten, liste)
    {
      hide Wrap;
      var stand: map<string, Int64> := map[];
      for i := 0 to |liste|
        invariant BlockNoncen(konten, liste[..i]) == Some(stand)
      {
        var u := liste[i];
        assert liste[..i + 1][..i] == liste[..i];
        var naechste: Int64 := 0;
        if u.absender in stand {
          naechste := stand[u.absender];
        } else if u.absender in konten {
          naechste := konten[u.absender];
        }
        if u.nonce < naechste {
          AbgelehntBleibt(konten, liste, i + 1);
          return None;
        }
        stand := stand[u.absender := Wrap(u.nonce + 1)];
      }
      assert liste[..|liste|] == liste;
      r := Some(stand);
    }

    /** Takes over new values account by account, in any order. */
    method SetzeNoncen(neu: map<string, Int64>)
      modifies this
      ensures konten == Gesetzt(old(konten), neu)
    {
      ghost var alt := konten;
      var offen := neu.Keys;
      while offen != {}
        invariant offen <= neu.Keys && konten.Keys == alt.Keys
        invariant forall a :: a in konten ==> konten[a] == if a in offen then alt[a] else Gesetzt(alt, neu)[a]
        decreases |offen|
      {
        var a :| a in offen;
        offen := offen - {a};
        if a !in konten || neu[a] <= konten[a] { continue; }
        konten := konten[a := neu[a]];
      }
    }

    /** At admission, together with the order; refused nonces change nothing. */
    method MerkeNonce(r: A.Regeln, tx: A.Transaktion) returns (ok: bool)
      modifies this
      ensures ok <==> TxGemerkt(r, old(konten), tx).Some?
      ensures konten == if ok then TxGemerkt(r, old(konten), tx).wert else old(konten)
    {
      hide Wrap;
      if tx.nachweis.None? || !A.NutztNonce(tx.typ) { return true; }
      var w := r.klein(tx.wallet);
      if w !in konten { return false; }
      if tx.nachweis.wert.nonce < konten[w] { return false; }
      konten := konten[w := Wrap(tx.nachweis.wert.nonce + 1)];
      ok := true;
    }
  }

  lemma {:induction false} AbgelehntBleibt(konten: Konten, liste: seq<Nonce>, i: nat)
    requires i <= |liste| && BlockNoncen(konten, liste[..i]).None?
    ensures BlockNoncen(konten, liste).None?
  {
    var n := |liste| - 1;
    if i < |liste| {
      assert liste[..n][..i] == liste[..i];
      AbgelehntBleibt(konten, liste[..n], i);
    } else {
      assert liste[..i] == liste;
    }
  }
}
