/**
 Signed orders in a block: checked by a pool of workers over one atomic index, and their
 nonces, at admission one by one and in the block all at once.
 */
module Auftraege {
  import opened Typen

  // ---- one order ------------------------------------------------------------------------

  /** What the signer put under an order; the signatures themselves stay abstract. */
  datatype Nachweis = Nachweis(nonce: Int64, zeit: Int64, unterschriften: seq<seq<int>>)

  datatype Transaktion = Transaktion(typ: string, wallet: string, nachweis: Option<Nachweis>)

  /** Address normalisation, and whether the block executes what was signed by whoever had to sign. */
  datatype Regeln = Regeln(klein: string -> string, unterschrieben: Transaktion -> bool)

  datatype Mangel = OhneNachweis | FalscheZeit | NegativeNonce | NichtUnterschrieben

  const HOECHSTENS_ALT := 3600
  const HOECHSTENS_VORAUS := 300

  predicate NutztNonce(typ: string) {
    || typ == "swap_aeq_tusd" || typ == "swap_tusd_aeq" || typ == "add_liquidity" || typ == "remove_liquidity"
    || typ == "vorbehalt"
  }

  predicate BrauchtNachweis(typ: string) {
    || NutztNonce(typ)
    || typ == "faucet" || typ == "escrow_recover" || typ == "vormund_setzen" || typ == "lebenszeichen"
    || typ == "unternehmen_eroeffnen" || typ == "unternehmen_mitinhaber" || typ == "unternehmen_schliessen"
    || typ == "unternehmen_verzeichnis" || typ == "unternehmen_buergschaft" || typ == "unternehmen_austreten"
    || typ == "validator_bindung"
  }

  predicate ZeitPasst(zeit: Int64, blockZeit: Int64) {
    Wrap(blockZeit - HOECHSTENS_ALT) <= zeit <= Wrap(blockZeit + HOECHSTENS_VORAUS)
  }

  /** What is wrong with an order's proof, if anything. */
  function Pruefe(r: Regeln, tx: Transaktion, blockZeit: Int64): Option<Mangel> {
    if tx.nachweis.None? then Some(OhneNachweis)
    else if tx.typ != "escrow_recover" && !ZeitPasst(tx.nachweis.wert.zeit, blockZeit) then Some(FalscheZeit)
    else if NutztNonce(tx.typ) && tx.nachweis.wert.nonce < 0 then Some(NegativeNonce)
    else if !r.unterschrieben(tx) then Some(NichtUnterschrieben)
    else None
  }

  datatype AuftragsNonce = AuftragsNonce(absender: string, nonce: Int64)

  datatype Pruefergebnis = Ok(liste: seq<AuftragsNonce>) | Fehler(index: nat, mangel: Mangel)

  function NonceVon(r: Regeln, tx: Transaktion): seq<AuftragsNonce> {
    if BrauchtNachweis(tx.typ) && NutztNonce(tx.typ) && tx.nachweis.Some?
    then [AuftragsNonce(r.klein(tx.wallet), tx.nachweis.wert.nonce)] else []
  }

  /** Checking one order after the other and stopping at the first bad one. */
  function DerReihe(r: Regeln, txs: seq<Transaktion>, blockZeit: Int64): Pruefergebnis {
    if txs == [] then Ok([])
    else
      var n := |txs| - 1;
      var vorne := DerReihe(r, txs[..n], blockZeit);
      if vorne.Fehler? || !BrauchtNachweis(txs[n].typ) then vorne
      else
        match Pruefe(r, txs[n], blockZeit)
        case Some(m) => Fehler(n, m)
        case None => Ok(vorne.liste + NonceVon(r, txs[n]))
  }

  // ---- workers over one index --------------------------------------------------------------

  /** n places to check, and how. */
  datatype Aufgabe = Aufgabe(n: nat, pruefe: nat -> Option<Mangel>)

  datatype Arbeiter = Frei | Prueft(k: nat) | Fertig

  /** geprueft counts how often each place was checked. */
  datatype Halle = Halle(naechster: nat, fehler: seq<Option<Mangel>>, geprueft: seq<nat>, arbeiter: seq<Arbeiter>)

  function Anfang(n: nat, arbeiter: nat): Halle {
    Halle(0, seq(n, _ => None), seq<nat>(n, _ => 0), seq(arbeiter, _ => Frei))
  }

  /** One atomic step of worker i: take the next place, or check the one taken. */
  function Schritt(u: Aufgabe, h: Halle, i: nat): Halle
    requires i < |h.arbeiter| && |h.fehler| == |h.geprueft| == u.n
    requires h.arbeiter[i].Prueft? ==> h.arbeiter[i].k < u.n
  {
    match h.arbeiter[i]
    case Frei =>
      h.(naechster := h.naechster + 1,
         arbeiter := h.arbeiter[i := if h.naechster < u.n then Prueft(h.naechster) else Fertig])
    case Prueft(k) =>
      h.(fehler := h.fehler[k := u.pruefe(k)], geprueft := h.geprueft[k := h.geprueft[k] + 1],
         arbeiter := h.arbeiter[i := Frei])
    case Fertig => h
  }

  /** Each place below the index is being checked by exactly one worker or has been checked once. */
  ghost predicate Stimmig(u: Aufgabe, h: Halle) {
    && |h.fehler| == |h.geprueft| == u.n
    && (forall i :: 0 <= i < |h.arbeiter| && h.arbeiter[i].Prueft? ==>
          h.arbeiter[i].k < u.n && h.arbeiter[i].k < h.naechster && h.geprueft[h.arbeiter[i].k] == 0)
    && (forall i, j :: 0 <= i < j < |h.arbeiter| && h.arbeiter[i].Prueft? && h.arbeiter[j].Prueft? ==>
          h.arbeiter[i].k != h.arbeiter[j].k)
    && (forall i :: 0 <= i < |h.arbeiter| && h.arbeiter[i].Fertig? ==> h.naechster >= u.n)
    && (forall k :: 0 <= k < u.n ==> PlatzStimmt(u, h, k))
  }

  ghost predicate PlatzStimmt(u: Aufgabe, h: Halle, k: nat)
    requires |h.fehler| == |h.geprueft| == u.n && k < u.n
  {
    && h.geprueft[k] <= 1
    && (h.geprueft[k] == 1 ==> k < h.naechster && h.fehler[k] == u.pruefe(k))
    && (h.geprueft[k] == 0 && k < h.naechster ==> WirdGeprueft(h.arbeiter, k))
  }

  predicate WirdGeprueft(arbeiter: seq<Arbeiter>, k: nat) {
    exists i :: 0 <= i < |arbeiter| && arbeiter[i] == Prueft(k)
  }

  /** Every step of every worker keeps that. */
  lemma SchrittStimmig(u: Aufgabe, h: Halle, i: nat)
    requires Stimmig(u, h) && i < |h.arbeiter|
    ensures Stimmig(u, Schritt(u, h, i))
  {
    var r := Schritt(u, h, i);
    if h.arbeiter[i].Frei? && h.naechster < u.n { assert PlatzStimmt(u, h, h.naechster); }
    forall j | 0 <= j < |r.arbeiter| && j != i ensures r.arbeiter[j] == h.arbeiter[j] {}
    forall k | 0 <= k < u.n ensures PlatzStimmt(u, r, k) {
      assert PlatzStimmt(u, h, k);
      if r.geprueft[k] == 0 && k < r.naechster {
        if k < h.naechster {
          var j :| 0 <= j < |h.arbeiter| && h.arbeiter[j] == Prueft(k);
          assert j != i;
          assert r.arbeiter[j] == Prueft(k);
        } else {
          assert r.arbeiter[i] == Prueft(k);
        }
      }
    }
  }

  /** When all are done, every place has been checked exactly once and holds its own verdict. */
  lemma AlleFertig(u: Aufgabe, h: Halle)
    requires Stimmig(u, h) && h.arbeiter != [] && forall i :: 0 <= i < |h.arbeiter| ==> h.arbeiter[i].Fertig?
    ensures |h.fehler| == |h.geprueft| == u.n
    ensures forall k :: 0 <= k < u.n ==> h.geprueft[k] == 1 && h.fehler[k] == u.pruefe(k)
  {
    assert h.arbeiter[0].Fertig?;
    forall k | 0 <= k < u.n ensures h.geprueft[k] == 1 && h.fehler[k] == u.pruefe(k) {
      assert PlatzStimmt(u, h, k);
    }
  }

  /** Steps still to be made by one worker, and by all. */
  function Rest(a: Arbeiter): nat { match a case Frei => 1 case Prueft(_) => 2 case Fertig => 0 }

  function AlleReste(arbeiter: seq<Arbeiter>): nat {
    if arbeiter == [] then 0 else AlleReste(arbeiter[..|arbeiter| - 1]) + Rest(arbeiter[|arbeiter| - 1])
  }

  lemma {:induction false} ResteNach(arbeiter: seq<Arbeiter>, i: nat, a: Arbeiter)
    requires i < |arbeiter|
    ensures AlleReste(arbeiter[i := a]) == AlleReste(arbeiter) - Rest(arbeiter[i]) + Rest(a)
  {
    var n := |arbeiter| - 1;
    if i < n {
      ResteNach(arbeiter[..n], i, a);
      assert arbeiter[i := a][..n] == arbeiter[..n][i := a];
    } else {
      assert arbeiter[i := a][..n] == arbeiter[..n];
    }
  }

  function Restarbeit(n: nat, h: Halle): nat {
    2 * (if h.naechster < n then n - h.naechster else 0) + AlleReste(h.arbeiter)
  }

  /** No schedule goes on forever: each step of an unfinished worker uses up work. */
  lemma SchrittKommtVoran(u: Aufgabe, h: Halle, i: nat)
    requires Stimmig(u, h) && i < |h.arbeiter| && !h.arbeiter[i].Fertig?
    ensures Restarbeit(u.n, Schritt(u, h, i)) < Restarbeit(u.n, h)
  {
    hide AlleReste;
    ResteNach(h.arbeiter, i, Schritt(u, h, i).arbeiter[i]);
    assert Schritt(u, h, i).arbeiter == h.arbeiter[i := Schritt(u, h, i).arbeiter[i]];
  }

  // ---- the whole check ----------------------------------------------------------------------

  /** Places of the orders that need a proof. */
  function Indizes(txs: seq<Transaktion>): (idx: seq<nat>)
    ensures forall k :: 0 <= k < |idx| ==> idx[k] < |txs| && BrauchtNachweis(txs[idx[k]].typ)
  {
    if txs == [] then []
    else
      var n := |txs| - 1;
      Indizes(txs[..n]) + (if BrauchtNachweis(txs[n].typ) then [n] else [])
  }

  function Urteile(r: Regeln, txs: seq<Transaktion>, blockZeit: Int64): (u: seq<Option<Mangel>>)
    ensures |u| == |Indizes(txs)|
  {
    var idx := Indizes(txs);
    seq(|idx|, k requires 0 <= k < |idx| => Pruefe(r, txs[idx[k]], blockZeit))
  }

  /** The first n verdicts read in block order. */
  function Auswertung(r: Regeln, txs: seq<Transaktion>, idx: seq<nat>, fehler: seq<Option<Mangel>>,
                      n: nat): Pruefergebnis
    requires n <= |idx| == |fehler| && forall k :: 0 <= k < |idx| ==> idx[k] < |txs|
  {
    if n == 0 then Ok([])
    else
      var vorne := Auswertung(r, txs, idx, fehler, n - 1);
      if vorne.Fehler? then vorne
      else if fehler[n - 1].Some? then Fehler(idx[n - 1], fehler[n - 1].wert)
      else Ok(vorne.liste + NonceVon(r, txs[idx[n - 1]]))
  }

  /** Only the first n places and the orders they name matter. */
  lemma {:induction false} AuswertungGleich(r: Regeln, txs: seq<Transaktion>, idx: seq<nat>,
                                            fehler: seq<Option<Mangel>>,
                                            txs': seq<Transaktion>, idx': seq<nat>, fehler': seq<Option<Mangel>>,
                                            n: nat)
    requires n <= |idx| == |fehler| && forall k :: 0 <= k < |idx| ==> idx[k] < |txs|
    requires n <= |idx'| == |fehler'| && forall k :: 0 <= k < |idx'| ==> idx'[k] < |txs'|
    requires forall k :: 0 <= k < n ==> idx[k] == idx'[k] && fehler[k] == fehler'[k] && txs[idx[k]] == txs'[idx[k]]
    ensures Auswertung(r, txs, idx, fehler, n) == Auswertung(r, txs', idx', fehler', n)
  {
    hide NonceVon;
    if n > 0 { AuswertungGleich(r, txs, idx, fehler, txs', idx', fehler', n - 1); }
  }

  /** Reading the verdicts in order is checking in order. */
  lemma {:induction false} AuswertungIstDerReihe(r: Regeln, txs: seq<Transaktion>, blockZeit: Int64)
    ensures Auswertung(r, txs, Indizes(txs), Urteile(r, txs, blockZeit), |Indizes(txs)|) == DerReihe(r, txs, blockZeit)
  {
    hide BrauchtNachweis, Pruefe, NonceVon;
    if txs != [] {
      var n := |txs| - 1;
      AuswertungIstDerReihe(r, txs[..n], blockZeit);
      IndizesVorne(r, txs, blockZeit);
      AuswertungGleich(r, txs, Indizes(txs), Urteile(r, txs, blockZeit),
                       txs[..n], Indizes(txs[..n]), Urteile(r, txs[..n], blockZeit), |Indizes(txs[..n])|);
    }
  }

  lemma IndizesVorne(r: Regeln, txs: seq<Transaktion>, blockZeit: Int64)
    requires txs != []
    ensures var n := |txs| - 1; var idx, vorne := Indizes(txs), Indizes(txs[..n]);
      && idx == vorne + (if BrauchtNachweis(txs[n].typ) then [n] else [])
      && (forall k :: 0 <= k < |vorne| ==>
            idx[k] == vorne[k] && vorne[k] < n && Urteile(r, txs, blockZeit)[k] == Urteile(r, txs[..n], blockZeit)[k])
      && (BrauchtNachweis(txs[n].typ) ==> Urteile(r, txs, blockZeit)[|vorne|] == Pruefe(r, txs[n], blockZeit))
  {
    hide BrauchtNachweis, Pruefe;
  }

  lemma {:induction false} ErsterFehlerBleibt(r: Regeln, txs: seq<Transaktion>, idx: seq<nat>,
                                              fehler: seq<Option<Mangel>>, k: nat, n: nat)
    requires k <= n <= |idx| == |fehler| && forall j :: 0 <= j < |idx| ==> idx[j] < |txs|
    requires Auswertung(r, txs, idx, fehler, k).Fehler?
    ensures Auswertung(r, txs, idx, fehler, n) == Auswertung(r, txs, idx, fehler, k)
  {
    hide NonceVon;
    if k < n { ErsterFehlerBleibt(r, txs, idx, fehler, k, n - 1); }
  }

  /** Checks with any number of workers, stepping in any order; the outcome is that of checking
      one after the other, with the error of the smallest index. */
  method PruefeAuftraegeImBlock(r: Regeln, txs: seq<Transaktion>, blockZeit: Int64, kerne: nat)
    returns (erg: Pruefergebnis)
    requires kerne > 0
    ensures erg == DerReihe(r, txs, blockZeit)
  {
    hide BrauchtNachweis, Pruefe, NonceVon, Urteile, DerReihe, Indizes;
    var idx := IndizesSammeln(txs);
    AuswertungIstDerReihe(r, txs, blockZeit);
    if idx == [] { return Ok([]); }
    var u := Aufgabe(|idx|, (k: nat) => PruefeStelle(r, txs, idx, blockZeit, k));
    var h := Werkhalle(u, if kerne > |idx| then |idx| else kerne);
    var fehler := h.fehler;
    UrteileGleich(r, txs, blockZeit, fehler);
    var liste := [];
    for k := 0 to |idx|
      invariant Auswertung(r, txs, idx, fehler, k) == Ok(liste)
    {
      if fehler[k].Some? {
        ErsterFehlerBleibt(r, txs, idx, fehler, k + 1, |idx|);
        return Fehler(idx[k], fehler[k].wert);
      }
      liste := liste + NonceVon(r, txs[idx[k]]);
    }
    erg := Ok(liste);
  }

  function PruefeStelle(r: Regeln, txs: seq<Transaktion>, idx: seq<nat>, blockZeit: Int64, k: nat): Option<Mangel> {
    if k < |idx| && idx[k] < |txs| then Pruefe(r, txs[idx[k]], blockZeit) else None
  }

  lemma UrteileGleich(r: Regeln, txs: seq<Transaktion>, blockZeit: Int64, fehler: seq<Option<Mangel>>)
    requires |fehler| == |Indizes(txs)|
    requires forall k :: 0 <= k < |fehler| ==> fehler[k] == PruefeStelle(r, txs, Indizes(txs), blockZeit, k)
    ensures fehler == Urteile(r, txs, blockZeit)
  {
    hide Pruefe, BrauchtNachweis;
  }

  method IndizesSammeln(txs: seq<Transaktion>) returns (idx: seq<nat>)
    ensures idx == Indizes(txs)
  {
    hide BrauchtNachweis;
    idx := [];
    for i := 0 to |txs|
      invariant idx == Indizes(txs[..i])
    {
      assert txs[..i + 1][..i] == txs[..i];
      if BrauchtNachweis(txs[i].typ) { idx := idx + [i]; }
    }
    assert txs[..|txs|] == txs;
  }

  /** The pool: as long as someone is not done, anyone who is not done takes a step. */
  method Werkhalle(u: Aufgabe, arbeiter: nat) returns (h: Halle)
    requires arbeiter > 0
    ensures |h.fehler| == |h.geprueft| == u.n
    ensures forall k :: 0 <= k < u.n ==> h.geprueft[k] == 1 && h.fehler[k] == u.pruefe(k)
  {
    h := Anfang(u.n, arbeiter);
    AnfangStimmig(u, arbeiter);
    hide Schritt, Stimmig, Restarbeit, Anfang;
    while exists i :: 0 <= i < |h.arbeiter| && !h.arbeiter[i].Fertig?
      invariant Stimmig(u, h) && |h.arbeiter| == arbeiter
      decreases Restarbeit(u.n, h)
    {
      var i :| 0 <= i < |h.arbeiter| && !h.arbeiter[i].Fertig?;
      SchrittStimmig(u, h, i);
      SchrittKommtVoran(u, h, i);
      SchrittMoeglich(u, h, i);
      h := Schritt(u, h, i);
    }
    AlleFertig(u, h);
  }

  lemma AnfangStimmig(u: Aufgabe, arbeiter: nat)
    ensures Stimmig(u, Anfang(u.n, arbeiter)) && |Anfang(u.n, arbeiter).arbeiter| == arbeiter
  {
  }

  lemma SchrittMoeglich(u: Aufgabe, h: Halle, i: nat)
    requires Stimmig(u, h) && i < |h.arbeiter|
    ensures |h.fehler| == |h.geprueft| == u.n && (h.arbeiter[i].Prueft? ==> h.arbeiter[i].k < u.n)
    ensures |Schritt(u, h, i).arbeiter| == |h.arbeiter|
  {
  }
}
