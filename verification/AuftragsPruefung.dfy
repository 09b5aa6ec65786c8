/**
 Which blocks of signed orders are accepted, told order by order, and what is reported otherwise.
 */
module AuftragsPruefung {
  import opened Typen
  import opened A = Auftraege
  import N = AuftragsNoncen

  /** The kinds of order that carry a nonce, and those that carry a signed proof. */
  const MIT_NONCE: set<string> :=
    {"swap_aeq_tusd", "swap_tusd_aeq", "add_liquidity", "remove_liquidity", "vorbehalt"}

  const MIT_NACHWEIS: set<string> := MIT_NONCE +
    {"faucet", "escrow_recover", "vormund_setzen", "lebenszeichen", "unternehmen_eroeffnen", "unternehmen_mitinhaber",
      "unternehmen_schliessen", "unternehmen_verzeichnis", "unternehmen_buergschaft", "unternehmen_austreten",
      "validator_bindung"}

  lemma ArtenGenau(typ: string)
    ensures NutztNonce(typ) <==> typ in MIT_NONCE
    ensures BrauchtNachweis(typ) <==> typ in MIT_NACHWEIS
  {
  }

  /** Signed at most an hour before and five minutes after the block, unless the kind has no time. */
  predicate Rechtzeitig(tx: Transaktion, blockZeit: Int64)
    requires tx.nachweis.Some?
  {
    tx.typ == "escrow_recover" || Wrap(blockZeit - 3600) <= tx.nachweis.wert.zeit <= Wrap(blockZeit + 300)
  }

  predicate NonceErlaubt(tx: Transaktion)
    requires tx.nachweis.Some?
  {
    tx.typ in MIT_NONCE ==> tx.nachweis.wert.nonce >= 0
  }

  /** An order that needs a proof carries one, in time, with a nonce that is not negative, and signed. */
  predicate Einwandfrei(r: Regeln, tx: Transaktion, blockZeit: Int64) {
    tx.typ in MIT_NACHWEIS ==>
      tx.nachweis.Some? && Rechtzeitig(tx, blockZeit) && NonceErlaubt(tx) && r.unterschrieben(tx)
  }

  /** m is the first thing wrong with an order that needs a proof. */
  predicate Mangelhaft(r: Regeln, tx: Transaktion, blockZeit: Int64, m: Mangel) {
    && tx.typ in MIT_NACHWEIS
    && match m
       case OhneNachweis => tx.nachweis.None?
       case FalscheZeit => tx.nachweis.Some? && !Rechtzeitig(tx, blockZeit)
       case NegativeNonce => tx.nachweis.Some? && Rechtzeitig(tx, blockZeit) && !NonceErlaubt(tx)
       case NichtUnterschrieben =>
         tx.nachweis.Some? && Rechtzeitig(tx, blockZeit) && NonceErlaubt(tx) && !r.unterschrieben(tx)
  }

  lemma PruefeGenau(r: Regeln, tx: Transaktion, blockZeit: Int64)
    requires BrauchtNachweis(tx.typ)
    ensures Pruefe(r, tx, blockZeit).None? <==> Einwandfrei(r, tx, blockZeit)
    ensures Pruefe(r, tx, blockZeit).Some? ==> Mangelhaft(r, tx, blockZeit, Pruefe(r, tx, blockZeit).wert)
  {
    hide BrauchtNachweis, NutztNonce, Wrap;
    ArtenGenau(tx.typ);
  }

  lemma OhnePflicht(r: Regeln, tx: Transaktion, blockZeit: Int64)
    requires !BrauchtNachweis(tx.typ)
    ensures Einwandfrei(r, tx, blockZeit)
  {
    hide BrauchtNachweis;
    ArtenGenau(tx.typ);
  }

  /** A block is accepted exactly if each of its orders is in order; otherwise the first that is not
      is reported, with what is wrong with it. */
  lemma {:induction false} BlockGenau(r: Regeln, txs: seq<Transaktion>, blockZeit: Int64)
    ensures DerReihe(r, txs, blockZeit).Ok? <==> forall i :: 0 <= i < |txs| ==> Einwandfrei(r, txs[i], blockZeit)
    ensures DerReihe(r, txs, blockZeit).Fehler? ==>
      var f := DerReihe(r, txs, blockZeit);
      && f.index < |txs| && Mangelhaft(r, txs[f.index], blockZeit, f.mangel)
      && forall j :: 0 <= j < f.index ==> Einwandfrei(r, txs[j], blockZeit)
  {
    hide BrauchtNachweis, Pruefe, Einwandfrei, Mangelhaft, NonceVon;
    if txs != [] {
      var n := |txs| - 1;
      BlockGenau(r, txs[..n], blockZeit);
      if BrauchtNachweis(txs[n].typ) {
        PruefeGenau(r, txs[n], blockZeit);
        NurEinMangel(r, txs[n], blockZeit);
      } else {
        OhnePflicht(r, txs[n], blockZeit);
      }
      var f := DerReihe(r, txs[..n], blockZeit);
      if f.Fehler? { NurEinMangel(r, txs[f.index], blockZeit); }
    }
  }

  /** An order in order has nothing wrong with it, and never two first things. */
  lemma NurEinMangel(r: Regeln, tx: Transaktion, blockZeit: Int64)
    ensures Einwandfrei(r, tx, blockZeit) ==> forall m :: !Mangelhaft(r, tx, blockZeit, m)
    ensures forall m, m' :: Mangelhaft(r, tx, blockZeit, m) && Mangelhaft(r, tx, blockZeit, m') ==> m == m'
  {
    hide Wrap;
  }

  /** The entries of a list stand for the orders at the given places: just those of a kind that
      carries a nonce, in block order, each with its normalised sender. */
  predicate Verzeichnet(r: Regeln, txs: seq<Transaktion>, liste: seq<AuftragsNonce>, stellen: seq<nat>) {
    && |stellen| == |liste|
    && (forall k, l :: 0 <= k < l < |stellen| ==> stellen[k] < stellen[l])
    && (forall i: nat :: i < |txs| && txs[i].typ in MIT_NONCE ==> i in stellen)
    && forall k :: 0 <= k < |stellen| ==> EintragFuer(r, txs, stellen[k], liste[k])
  }

  predicate EintragFuer(r: Regeln, txs: seq<Transaktion>, i: nat, u: AuftragsNonce) {
    && i < |txs| && txs[i].typ in MIT_NONCE && txs[i].nachweis.Some?
    && u == AuftragsNonce(r.klein(txs[i].wallet), txs[i].nachweis.wert.nonce)
  }

  /** So it is with the nonces of an accepted block. */
  lemma {:induction false} ListeGenau(r: Regeln, txs: seq<Transaktion>, blockZeit: Int64) returns (stellen: seq<nat>)
    requires DerReihe(r, txs, blockZeit).Ok?
    ensures Verzeichnet(r, txs, DerReihe(r, txs, blockZeit).liste, stellen)
  {
    hide BrauchtNachweis, NutztNonce, Pruefe, Verzeichnet, MIT_NONCE, NonceVon;
    stellen := [];
    if txs == [] {
      NichtsVerzeichnet(r);
    } else {
      var n := |txs| - 1;
      var tx := txs[n];
      stellen := ListeGenau(r, txs[..n], blockZeit);
      N.NonceEinzeln(r, tx, blockZeit);
      ArtenGenau(tx.typ);
      var vorne := DerReihe(r, txs[..n], blockZeit).liste;
      if BrauchtNachweis(tx.typ) { AngenommenTraegt(r, tx, blockZeit); }
      if NutztNonce(tx.typ) {
        EinsMehrVerzeichnet(r, txs, vorne, stellen);
        stellen := stellen + [n];
      } else {
        OhneNonceVerzeichnet(r, txs, vorne, stellen);
        assert vorne + [] == vorne;
      }
    }
  }

  lemma NichtsVerzeichnet(r: Regeln)
    ensures Verzeichnet(r, [], [], [])
  {
  }

  lemma AngenommenTraegt(r: Regeln, tx: Transaktion, blockZeit: Int64)
    requires Pruefe(r, tx, blockZeit).None?
    ensures tx.nachweis.Some?
  {
  }

  lemma EintragBleibt(r: Regeln, txs: seq<Transaktion>, i: nat, u: AuftragsNonce)
    requires txs != [] && EintragFuer(r, txs[..|txs| - 1], i, u)
    ensures i < |txs| - 1 && EintragFuer(r, txs, i, u)
  {
    hide MIT_NONCE;
  }

  lemma EinsMehrVerzeichnet(r: Regeln, txs: seq<Transaktion>, liste: seq<AuftragsNonce>, stellen: seq<nat>)
    requires txs != [] && Verzeichnet(r, txs[..|txs| - 1], liste, stellen)
    requires txs[|txs| - 1].typ in MIT_NONCE && txs[|txs| - 1].nachweis.Some?
    ensures var tx := txs[|txs| - 1];
      Verzeichnet(r, txs, liste + [AuftragsNonce(r.klein(tx.wallet), tx.nachweis.wert.nonce)], stellen + [|txs| - 1])
  {
    hide MIT_NONCE, EintragFuer;
    var n := |txs| - 1;
    var u := AuftragsNonce(r.klein(txs[n].wallet), txs[n].nachweis.wert.nonce);
    forall k | 0 <= k < |stellen| ensures EintragFuer(r, txs, stellen[k], liste[k]) && stellen[k] < n {
      EintragBleibt(r, txs, stellen[k], liste[k]);
    }
    assert EintragFuer(r, txs, n, u) by { LetzterEintrag(r, txs); }
    NichtsVergessen(txs, stellen);
  }

  lemma LetzterEintrag(r: Regeln, txs: seq<Transaktion>)
    requires txs != [] && txs[|txs| - 1].typ in MIT_NONCE && txs[|txs| - 1].nachweis.Some?
    ensures var n := |txs| - 1;
      EintragFuer(r, txs, n, AuftragsNonce(r.klein(txs[n].wallet), txs[n].nachweis.wert.nonce))
  {
    hide MIT_NONCE;
  }

  lemma NichtsVergessen(txs: seq<Transaktion>, stellen: seq<nat>)
    requires txs != [] && forall i: nat :: i < |txs| - 1 && txs[..|txs| - 1][i].typ in MIT_NONCE ==> i in stellen
    ensures forall i: nat :: i < |txs| && txs[i].typ in MIT_NONCE ==> i in stellen + [|txs| - 1]
    ensures txs[|txs| - 1].typ !in MIT_NONCE ==> forall i: nat :: i < |txs| && txs[i].typ in MIT_NONCE ==> i in stellen
  {
    hide MIT_NONCE;
    forall i: nat | i < |txs| - 1 && txs[i].typ in MIT_NONCE ensures i in stellen {
      assert txs[..|txs| - 1][i] == txs[i];
    }
  }

  lemma OhneNonceVerzeichnet(r: Regeln, txs: seq<Transaktion>, liste: seq<AuftragsNonce>, stellen: seq<nat>)
    requires txs != [] && Verzeichnet(r, txs[..|txs| - 1], liste, stellen) && txs[|txs| - 1].typ !in MIT_NONCE
    ensures Verzeichnet(r, txs, liste, stellen)
  {
    hide MIT_NONCE, EintragFuer;
    forall k | 0 <= k < |stellen| ensures EintragFuer(r, txs, stellen[k], liste[k]) {
      EintragBleibt(r, txs, stellen[k], liste[k]);
    }
    NichtsVergessen(txs, stellen);
  }

  // ---- their nonces --------------------------------------------------------------------------------

  /** What the nonce at place i of a block must be at least: one more than the sender's last one in the
      block, or else what the state allows him, or else 0. */
  function Mindestens(konten: N.Konten, liste: seq<AuftragsNonce>, i: nat): Int64
    requires i < |liste|
  {
    var a := liste[i].absender;
    if exists j :: 0 <= j < i && liste[j].absender == a then Wrap(N.LetzteNonce(liste[..i], a) + 1)
    else if a in konten then konten[a] else 0
  }

  /** The nonces of a block are accepted exactly if none is below that. */
  lemma {:induction false} NoncenGenau(konten: N.Konten, liste: seq<AuftragsNonce>)
    ensures N.BlockNoncen(konten, liste).Some?
      <==> forall i :: 0 <= i < |liste| ==> liste[i].nonce >= Mindestens(konten, liste, i)
  {
    hide Wrap, N.LetzteNonce, N.BlockNoncen, Mindestens;
    if liste == [] {
      N.LeererStand(konten);
    } else {
      var n := |liste| - 1;
      NoncenGenau(konten, liste[..n]);
      forall i | 0 <= i < n
        ensures liste[..n][i].nonce >= Mindestens(konten, liste[..n], i)
          <==> liste[i].nonce >= Mindestens(konten, liste, i)
      {
        MindestensVorne(konten, liste, i);
      }
      NoncenEins(konten, liste);
      if forall i :: 0 <= i < |liste| ==> liste[i].nonce >= Mindestens(konten, liste, i) {
        forall i | 0 <= i < n ensures liste[..n][i].nonce >= Mindestens(konten, liste[..n], i) {
          assert liste[i].nonce >= Mindestens(konten, liste, i);
        }
      }
    }
  }

  lemma MindestensVorne(konten: N.Konten, liste: seq<AuftragsNonce>, i: nat)
    requires i < |liste| - 1
    ensures Mindestens(konten, liste[..|liste| - 1], i) == Mindestens(konten, liste, i)
  {
    hide Wrap, N.LetzteNonce;
    assert liste[..|liste| - 1][..i] == liste[..i];
  }

  lemma NoncenEins(konten: N.Konten, liste: seq<AuftragsNonce>)
    requires liste != []
    ensures var n := |liste| - 1;
      N.BlockNoncen(konten, liste).Some?
      <==> N.BlockNoncen(konten, liste[..n]).Some? && liste[n].nonce >= Mindestens(konten, liste, n)
  {
    hide Wrap, N.LetzteNonce;
    var n := |liste| - 1;
    var a, vorne := liste[n].absender, liste[..n];
    if N.BlockNoncen(konten, vorne).Some? {
      hide N.BlockNoncen;
      N.StandSchluessel(konten, vorne);
      if a in N.BlockNoncen(konten, vorne).wert {
        N.StandWert(konten, vorne, a);
        var j := N.AbsenderAus(vorne, a);
        assert liste[j].absender == a;
      } else if j :| 0 <= j < n && liste[j].absender == a {
        N.AbsenderAn(vorne, j);
        assert false;
      }
    }
    NoncenEinsDef(konten, liste);
  }

  lemma NoncenEinsDef(konten: N.Konten, liste: seq<AuftragsNonce>)
    requires liste != []
    ensures var n := |liste| - 1; var vorne := N.BlockNoncen(konten, liste[..n]);
      N.BlockNoncen(konten, liste).Some?
      <==> vorne.Some? && liste[n].nonce >= N.Naechste(konten, vorne.wert, liste[n].absender)
  {
  }
}
