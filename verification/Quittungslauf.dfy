/**
 Receipts over whole runs of the network: ids never repeat, and every receipt ever issued is
 either under way or redeemed at its target, never both.
 */
module Quittungslauf {
  import opened Typen
  import opened Uebergang
  import opened Gleichlauf
  import opened Bereich
  import opened Netz
  import E = Einmal
  import L = Netzlauf

  // ---- what a run executes ------------------------------------------------------------------

  /** The execution behind a step, if it is one. */
  function Schrittausfuehrung(n: Netz, a: Aktion): seq<E.Ausfuehrung>
    requires |n.zustaende| == |n.letzter| && (a.Rechne? ==> a.bereich < |n.zustaende|)
  {
    if a.Rechne? then [E.Ausfuehrung(Vorschlag(n, a.bereich, a.eingaben, map[]), RahmenVon(n), n.zustaende[a.bereich])]
    else []
  }

  /** The blocks a run executes, in order. */
  ghost function Ausfuehrungen(w: Welt, n: Netz, plan: seq<Aktion>): seq<E.Ausfuehrung>
    requires |n.zustaende| == |n.letzter| && Ablauf(w, n, plan).Some?
  {
    if plan == [] then []
    else
      var k := |plan| - 1;
      Ausfuehrungen(w, n, plan[..k]) + Schrittausfuehrung(Ablauf(w, n, plan[..k]).wert, plan[k])
  }

  /** Every receipt issued in the run, in order. */
  ghost function Ausgestellte(w: Welt, n: Netz, plan: seq<Aktion>): seq<Quittung>
    requires |n.zustaende| == |n.letzter| && Ablauf(w, n, plan).Some?
  {
    E.Ausgaenge(w, Ausfuehrungen(w, n, plan))
  }

  /** How many of the blocks belong to shard i. */
  function Anzahl(xs: seq<E.Ausfuehrung>, i: int): nat {
    if xs == [] then 0 else Anzahl(xs[..|xs| - 1], i) + (if xs[|xs| - 1].b.bereich == i then 1 else 0)
  }

  // ---- block numbers -------------------------------------------------------------------------

  /** The blocks of each shard are numbered from 0 upward, modulo 2^64. */
  ghost predicate Nummeriert(xs: seq<E.Ausfuehrung>) {
    forall k :: 0 <= k < |xs| ==> xs[k].b.nr == Anzahl(xs[..k], xs[k].b.bereich) % ZWEI64
  }

  ghost predicate LetzteNummern(n: Netz, xs: seq<E.Ausfuehrung>) {
    forall i :: 0 <= i < |n.letzter| ==> LetzteNummer(n.letzter[i], Anzahl(xs, i))
  }

  predicate LetzteNummer(b: Option<BereichsBlock>, anzahl: nat) {
    if anzahl == 0 then b.None? else b.Some? && b.wert.nr == (anzahl - 1) % ZWEI64
  }

  lemma NaechsteNummer(n: Netz, i: nat, e: Eingaben, anzahl: nat)
    requires |n.zustaende| == |n.letzter| && i < |n.letzter| && LetzteNummer(n.letzter[i], anzahl)
    ensures Vorschlag(n, i, e, map[]).nr == anzahl % ZWEI64 && Vorschlag(n, i, e, map[]).bereich == i
  {
  }

  lemma {:induction false} LaufNummeriert(w: Welt, s: nat, plan: seq<Aktion>)
    requires Ablauf(w, Start(s), plan).Some?
    ensures Nummeriert(Ausfuehrungen(w, Start(s), plan))
    ensures LetzteNummern(Ablauf(w, Start(s), plan).wert, Ausfuehrungen(w, Start(s), plan))
  {
    hide Tritt, LetzteNummer, LetzteNummern, Nummeriert, Vorschlag, Anzahl;
    if plan == [] {
      AnfangNummeriert(w, s);
    } else {
      var k := |plan| - 1;
      var n, vorne := Ablauf(w, Start(s), plan[..k]).wert, Ausfuehrungen(w, Start(s), plan[..k]);
      LaufNummeriert(w, s, plan[..k]);
      if plan[k].Rechne? {
        EinBlockMehr(w, n, plan[k], vorne);
      } else {
        SchlussLaesst(w, n);
        GleicheNummern(n, Tritt(w, n, plan[k]), vorne);
        assert vorne + [] == vorne;
      }
    }
  }

  lemma GleicheNummern(n: Netz, n': Netz, xs: seq<E.Ausfuehrung>)
    requires n'.letzter == n.letzter && LetzteNummern(n, xs)
    ensures LetzteNummern(n', xs)
  {
  }

  lemma AnfangNummeriert(w: Welt, s: nat)
    ensures Nummeriert([]) && LetzteNummern(Start(s), [])
  {
    forall i | 0 <= i < s ensures LetzteNummer(Start(s).letzter[i], 0) { Unbeschrieben(s, i); }
  }

  lemma Unbeschrieben(s: nat, i: nat)
    requires i < s
    ensures LetzteNummer(Start(s).letzter[i], 0)
  {
  }

  lemma SchlussLaesst(w: Welt, n: Netz)
    requires |n.zustaende| == |n.letzter|
    ensures var n' := Tritt(w, n, Schliesse);
      n'.letzter == n.letzter && n'.zustaende == n.zustaende && n'.offen == n.offen
  {
  }

  lemma EinBlockMehr(w: Welt, n: Netz, a: Aktion, vorne: seq<E.Ausfuehrung>)
    requires |n.zustaende| == |n.letzter| && a.Rechne? && Moeglich(w, n, a)
    requires Nummeriert(vorne) && LetzteNummern(n, vorne)
    ensures Nummeriert(vorne + Schrittausfuehrung(n, a))
    ensures LetzteNummern(Tritt(w, n, a), vorne + Schrittausfuehrung(n, a))
  {
    hide Vorschlag, Probe, LetzteNummer;
    var x := Schrittausfuehrung(n, a)[0];
    var xs, m := vorne + [x], |vorne|;
    NaechsteNummer(n, a.bereich, a.eingaben, Anzahl(vorne, a.bereich));
    assert xs[..m] == vorne;
    forall k | 0 <= k < |xs| ensures xs[k].b.nr == Anzahl(xs[..k], xs[k].b.bereich) % ZWEI64 {
      if k < m { assert xs[..k] == vorne[..k]; }
    }
    forall i | 0 <= i < |n.letzter| ensures LetzteNummer(Tritt(w, n, a).letzter[i], Anzahl(xs, i)) {
      if i == a.bereich { EhrlichNummer(w, n, a, Anzahl(vorne, i)); }
    }
  }

  lemma EhrlichNummer(w: Welt, n: Netz, a: Aktion, anzahl: nat)
    requires |n.zustaende| == |n.letzter| && a.Rechne? && Moeglich(w, n, a)
    requires Vorschlag(n, a.bereich, a.eingaben, map[]).nr == anzahl % ZWEI64
    ensures LetzteNummer(Tritt(w, n, a).letzter[a.bereich], anzahl + 1)
  {
    hide Probe;
  }

  lemma {:induction false} AnzahlVorne(xs: seq<E.Ausfuehrung>, k: nat, i: int)
    requires k <= |xs|
    ensures Anzahl(xs[..k], i) <= Anzahl(xs, i)
    ensures k < |xs| && xs[k].b.bereich == i ==> Anzahl(xs[..k], i) < Anzahl(xs, i)
  {
    var n := |xs| - 1;
    if k < |xs| {
      assert xs[..n][..k] == xs[..k];
      AnzahlVorne(xs[..n], k, i);
      if k < n { assert xs[..n][k] == xs[k]; } else { assert xs[..k] == xs[..n]; }
    } else {
      assert xs[..k] == xs;
    }
  }

  lemma NummernVerschieden(xs: seq<E.Ausfuehrung>, k: nat, l: nat)
    requires Nummeriert(xs) && k < l < |xs| && Anzahl(xs, xs[l].b.bereich) <= ZWEI64
    ensures E.VerschiedeneStelle(xs[k].b, xs[l].b)
  {
    var i := xs[l].b.bereich;
    if xs[k].b.bereich == i {
      AnzahlVorne(xs[..l], k, i);
      assert xs[..l][..k] == xs[..k] && xs[..l][k] == xs[k];
      AnzahlVorne(xs, l, i);
      KleineReste(Anzahl(xs[..k], i), Anzahl(xs[..l], i));
    }
  }

  lemma KleineReste(x: nat, y: nat)
    requires x < y < ZWEI64
    ensures x % ZWEI64 != y % ZWEI64
  {
  }

  // ---- ids -----------------------------------------------------------------------------------

  /** U holds what the blocks, inputs and receipts of the executions are hashed from. */
  ghost predicate ListeBenannt(w: Welt, U: iset<Urbild>, xs: seq<E.Ausfuehrung>) {
    && VerbrauchtU in U
    && (forall x :: x in xs ==> E.BlockBenannt(w, U, x.b) && E.PlanBenannt(Plan(x.b.eingaben), U))
    && (forall q :: q in E.Ausgaenge(w, xs) ==> QuittungSchluesselU(q.id) in U)
  }

  ghost predicate LaufBenannt(w: Welt, U: iset<Urbild>, n: Netz, plan: seq<Aktion>)
    requires |n.zustaende| == |n.letzter| && Ablauf(w, n, plan).Some?
  {
    ListeBenannt(w, U, Ausfuehrungen(w, n, plan))
  }

  /** At most 2^64 blocks per shard: the numbers have not gone round. */
  ghost predicate Ungewickelt(xs: seq<E.Ausfuehrung>) { forall i :: Anzahl(xs, i) <= ZWEI64 }

  /** No two receipts ever issued in a run share an id. */
  lemma NetzStelltEinmalAus(w: Welt, U: iset<Urbild>, s: nat, plan: seq<Aktion>)
    requires Sicher(w, U) && Ablauf(w, Start(s), plan).Some? && LaufBenannt(w, U, Start(s), plan)
    requires Ungewickelt(Ausfuehrungen(w, Start(s), plan))
    ensures E.VerschiedeneIds(Ausgestellte(w, Start(s), plan))
  {
    hide Ablauf, Nummeriert, LetzteNummern, E.VerschiedeneStelle, E.VerschiedeneIds, E.BlockBenannt, E.PlanBenannt,
      Sicher,
      Anzahl, Ausfuehrungen, E.Ausgaenge;
    var xs := Ausfuehrungen(w, Start(s), plan);
    LaufNummeriert(w, s, plan);
    forall k, l | 0 <= k < l < |xs| ensures E.VerschiedeneStelle(xs[k].b, xs[l].b) {
      assert Anzahl(xs, xs[l].b.bereich) <= ZWEI64;
      NummernVerschieden(xs, k, l);
    }
    E.AlleIdsVerschieden(w, U, xs);
  }

  // ---- one block and its receipts ----------------------------------------------------------------

  /** Receipts with a positive amount, addressed to the shard of their recipient. */
  ghost predicate Zustellbar(w: Welt, s: int, qs: seq<Quittung>) {
    forall q :: q in qs ==> q.betrag > 0 && q.nachBereich == w.bereichVon(q.an, s)
  }

  lemma TueStelltZustellbarAus(w: Welt, b: Block, l: Uebergang.Lauf, x: Eingabe)
    requires Zustellbar(w, b.rahmen.s, l.ausgang)
    ensures Zustellbar(w, b.rahmen.s, Tue(w, b, l, x).lauf.ausgang)
  {
    hide SetzeKonto, Verbrauche, Nachgetragen, Belastet, Gebuehr, Gekappt, Kappung, Nachtrag, Gedeckt, LiesKonto;
  }

  lemma {:induction false} FolgeStelltZustellbarAus(w: Welt, b: Block, l: Uebergang.Lauf, plan: seq<Eingabe>)
    requires Zustellbar(w, b.rahmen.s, l.ausgang)
    ensures Zustellbar(w, b.rahmen.s, Folge(w, b, l, plan).lauf.ausgang)
    decreases |plan|
  {
    hide Tue, Zustellbar;
    if plan != [] {
      TueStelltZustellbarAus(w, b, l, plan[0]);
      if Tue(w, b, l, plan[0]).Weiter? { FolgeStelltZustellbarAus(w, b, Tue(w, b, l, plan[0]).lauf, plan[1..]); }
    }
  }

  predicate Loest(x: Eingabe, id: Hash) { x.Einloesung? && x.q.id == id }

  lemma TueLiest(w: Welt, b: Block, l: Uebergang.Lauf, x: Eingabe, id: Hash)
    requires Tue(w, b, l, x).Weiter?
    ensures id in Tue(w, b, l, x).lauf.quittungen <==> id in l.quittungen || Loest(x, id)
    ensures x.Einloesung? ==> x.q.nachBereich == b.bereich
  {
    hide SetzeKonto, Verbrauche, Nachgetragen, Belastet, Gebuehr, Gekappt, Kappung, Nachtrag, Gedeckt, LiesKonto;
  }

  /** A run that succeeds reads exactly the receipts among its inputs, all of them its own. */
  lemma {:induction false} FolgeLiest(w: Welt, b: Block, l: Uebergang.Lauf, plan: seq<Eingabe>, id: Hash)
    requires Folge(w, b, l, plan).Weiter?
    ensures id in Folge(w, b, l, plan).lauf.quittungen <==> id in l.quittungen || exists x :: x in plan && Loest(x, id)
    ensures forall x :: x in plan && x.Einloesung? ==> x.q.nachBereich == b.bereich
    decreases |plan|
  {
    hide Tue, Loest;
    if plan != [] {
      TueLiest(w, b, l, plan[0], id);
      FolgeLiest(w, b, Tue(w, b, l, plan[0]).lauf, plan[1..], id);
      assert plan == [plan[0]] + plan[1..];
    }
  }

  lemma EingangImPlan(e: Eingaben, id: Hash)
    ensures (exists x :: x in Plan(e) && Loest(x, id)) <==> exists q :: q in e.eingang && q.id == id
    ensures forall q :: q in e.eingang ==> Einloesung(q) in Plan(e)
  {
    var plan := Plan(e);
    forall q | q in e.eingang ensures Einloesung(q) in plan {
      var i :| 0 <= i < |e.eingang| && e.eingang[i] == q;
      assert plan[i] == Einloesung(q);
    }
    if q :| q in e.eingang && q.id == id { assert Loest(Einloesung(q), id); }
    if x :| x in plan && Loest(x, id) {
      var i :| 0 <= i < |plan| && plan[i] == x;
      assert i < |e.eingang| && e.eingang[i] == x.q;
    }
  }

  // ---- the books of receipts ---------------------------------------------------------------------

  /** Shard t has redeemed one of the issued receipts that are no longer under way. */
  ghost predicate Erledigt(offen: multiset<Quittung>, alle: seq<Quittung>, t: int, id: Hash) {
    exists q :: q in alle && q.id == id && q.nachBereich == t && q !in offen
  }

  /** Under way is only what was issued; redeemed in a shard is exactly what was issued to it and
      is no longer under way. */
  ghost predicate Verbucht(w: Welt, U: iset<Urbild>, n: Netz, alle: seq<Quittung>) {
    && n.offen <= multiset(alle)
    && (forall t :: 0 <= t < |n.zustaende| ==> BereichVerbucht(w, U, n, alle, t))
  }

  ghost predicate BereichVerbucht(w: Welt, U: iset<Urbild>, n: Netz, alle: seq<Quittung>, t: nat)
    requires t < |n.zustaende|
  {
    forall id :: QuittungSchluesselU(id) in U ==>
      (Eingeloest(w, n.zustaende[t].baum, id) <==> Erledigt(n.offen, alle, t, id))
  }

  lemma {:induction false} Einfach(qs: seq<Quittung>, q: Quittung)
    requires E.VerschiedeneIds(qs)
    ensures multiset(qs)[q] <= 1
  {
    if qs != [] {
      var k := |qs| - 1;
      Einfach(qs[..k], q);
      assert qs == qs[..k] + [qs[k]];
      assert qs[k] !in qs[..k];
    }
  }

  /** Which issued receipts are off the way after some were redeemed and others issued. */
  lemma Umgebucht(alle: seq<Quittung>, aus: seq<Quittung>, offen: multiset<Quittung>, ein: seq<Quittung>, q: Quittung)
    requires E.VerschiedeneIds(alle + aus) && multiset(ein) <= offen <= multiset(alle)
    ensures q in alle + aus && q !in offen - multiset(ein) + multiset(aus) <==> q in alle && (q !in offen || q in ein)
  {
    hide E.VerschiedeneIds;
    Einfach(alle + aus, q);
    assert multiset(alle + aus) == multiset(alle) + multiset(aus);
    assert q in alle <==> q in multiset(alle);
    assert q in aus <==> q in multiset(aus);
    assert q in ein <==> q in multiset(ein);
    assert multiset(ein)[q] <= offen[q] <= multiset(alle)[q];
  }

  lemma ErledigtNach(alle: seq<Quittung>, aus: seq<Quittung>, offen: multiset<Quittung>, ein: seq<Quittung>, i: int,
                     t: int, id: Hash)
    requires E.VerschiedeneIds(alle + aus) && multiset(ein) <= offen <= multiset(alle)
    requires forall q :: q in ein ==> q.nachBereich == i
    ensures Erledigt(offen - multiset(ein) + multiset(aus), alle + aus, t, id)
      <==> Erledigt(offen, alle, t, id) || (t == i && exists q :: q in ein && q.id == id)
  {
    hide E.VerschiedeneIds;
    var offen' := offen - multiset(ein) + multiset(aus);
    if Erledigt(offen', alle + aus, t, id) {
      var q :| q in alle + aus && q.id == id && q.nachBereich == t && q !in offen';
      Umgebucht(alle, aus, offen, ein, q);
    }
    if Erledigt(offen, alle, t, id) {
      var q :| q in alle && q.id == id && q.nachBereich == t && q !in offen;
      Umgebucht(alle, aus, offen, ein, q);
    }
    if t == i {
      if q :| q in ein && q.id == id {
        assert q in multiset(ein);
        assert q in multiset(alle);
        Umgebucht(alle, aus, offen, ein, q);
      }
    }
  }

  /** A block redeems what is under way to it and issues anew: the books stay right. */
  lemma BlockVerbucht(w: Welt, U: iset<Urbild>, n: Netz, a: Aktion, alle: seq<Quittung>)
    requires Sicher(w, U) && |n.zustaende| == |n.letzter| && a.Rechne? && Moeglich(w, n, a)
    requires Verbucht(w, U, n, alle) && n.zustaende[a.bereich].Voll? && E.PlanBenannt(Plan(a.eingaben), U)
    requires E.VerschiedeneIds(alle + Probe(w, n, a.bereich, a.eingaben).lauf.ausgang)
    ensures Verbucht(w, U, Tritt(w, n, a), alle + Probe(w, n, a.bereich, a.eingaben).lauf.ausgang)
  {
    hide Folge, Plan, E.Eingangsbuch, E.PlanBenannt, E.VerschiedeneIds, Sicher, Eingeloest, Erledigt, Loest,
      Vorschlag, Ehrlich;
    var i, e := a.bereich, a.eingaben;
    var l, z := Probe(w, n, i, e).lauf, n.zustaende[i];
    var b := BlockVon(w, n, i, e);
    var n', aus := Tritt(w, n, a), l.ausgang;
    assert multiset(alle + aus) == multiset(alle) + multiset(aus);
    E.BuchAnfang(w, U, z);
    E.FolgeBuch(w, U, b, z, Anfang(z), Plan(e));
    forall q | q in e.eingang ensures q.nachBereich == i {
      FolgeLiest(w, b, Anfang(z), Plan(e), q.id);
      EingangImPlan(e, q.id);
      assert Einloesung(q) in Plan(e);
    }
    forall t | 0 <= t < |n.zustaende| ensures BereichVerbucht(w, U, n', alle + aus, t) {
      assert BereichVerbucht(w, U, n, alle, t);
      forall id | QuittungSchluesselU(id) in U
        ensures Eingeloest(w, n'.zustaende[t].baum, id) <==> Erledigt(n'.offen, alle + aus, t, id)
      {
        ErledigtNach(alle, aus, n.offen, e.eingang, i, t, id);
        FolgeLiest(w, b, Anfang(z), Plan(e), id);
        EingangImPlan(e, id);
        BuchSagt(w, U, z, l.z, l.quittungen, id);
      }
    }
  }

  lemma BuchSagt(w: Welt, U: iset<Urbild>, z0: Zustand, z: Zustand, ids: seq<Hash>, id: Hash)
    requires E.Eingangsbuch(w, U, z0, z, ids) && QuittungSchluesselU(id) in U
    ensures Eingeloest(w, z.baum, id) <==> Eingeloest(w, z0.baum, id) || id in ids
  {
  }

  // ---- over a run -----------------------------------------------------------------------------------

  /** The last step of a run, and what it issued. */
  lemma Laufstueck(w: Welt, U: iset<Urbild>, s: nat, plan: seq<Aktion>)
    requires plan != [] && Ablauf(w, Start(s), plan).Some? && LaufBenannt(w, U, Start(s), plan)
    ensures var k := |plan| - 1;
      && Ablauf(w, Start(s), plan[..k]).Some? && LaufBenannt(w, U, Start(s), plan[..k])
      && (forall i :: 0 <= i < s ==> Ablauf(w, Start(s), plan[..k]).wert.zustaende[i].Voll?)
      && Ausgestellte(w, Start(s), plan) == Ausgestellte(w, Start(s), plan[..k])
           + Schrittausgang(w, Ablauf(w, Start(s), plan[..k]).wert, plan[k])
      && (plan[k].Rechne? ==> E.PlanBenannt(Plan(plan[k].eingaben), U))
  {
    hide Tritt, ListeBenannt, E.PlanBenannt, Schrittausfuehrung, Schrittausgang, Plan, E.Ausgaenge;
    var k := |plan| - 1;
    var n := Ablauf(w, Start(s), plan[..k]).wert;
    L.AblaufVoll(w, s, plan[..k]);
    var vorne, x := Ausfuehrungen(w, Start(s), plan[..k]), Schrittausfuehrung(n, plan[k]);
    assert Ausfuehrungen(w, Start(s), plan) == vorne + x;
    AusgaengeDavor(w, vorne, n, plan[k]);
    ListeVorne(w, U, vorne, x, Schrittausgang(w, n, plan[k]));
    if plan[k].Rechne? {
      SchrittIst(n, plan[k]);
      PlanAus(w, U, vorne + x, x[0]);
    }
  }

  lemma ListeVorne(w: Welt, U: iset<Urbild>, vorne: seq<E.Ausfuehrung>, dazu: seq<E.Ausfuehrung>, qs: seq<Quittung>)
    requires ListeBenannt(w, U, vorne + dazu) && E.Ausgaenge(w, vorne + dazu) == E.Ausgaenge(w, vorne) + qs
    ensures ListeBenannt(w, U, vorne)
  {
    hide E.BlockBenannt, E.PlanBenannt, Plan;
    forall x | x in vorne ensures x in vorne + dazu {}
    forall q | q in E.Ausgaenge(w, vorne) ensures q in E.Ausgaenge(w, vorne + dazu) {}
  }

  lemma PlanAus(w: Welt, U: iset<Urbild>, xs: seq<E.Ausfuehrung>, x: E.Ausfuehrung)
    requires ListeBenannt(w, U, xs) && x in xs
    ensures E.PlanBenannt(Plan(x.b.eingaben), U)
  {
  }

  ghost function Schrittausgang(w: Welt, n: Netz, a: Aktion): seq<Quittung>
    requires |n.zustaende| == |n.letzter| && Moeglich(w, n, a)
  {
    if a.Rechne? then Probe(w, n, a.bereich, a.eingaben).lauf.ausgang else []
  }

  lemma SchrittIst(n: Netz, a: Aktion)
    requires |n.zustaende| == |n.letzter| && a.Rechne? && a.bereich < |n.zustaende|
    ensures var x := Schrittausfuehrung(n, a); |x| == 1 && x[0] in x && x[0].b.eingaben == a.eingaben
  {
  }

  lemma AusgaengeDavor(w: Welt, vorne: seq<E.Ausfuehrung>, n: Netz, a: Aktion)
    requires |n.zustaende| == |n.letzter| && Moeglich(w, n, a)
    ensures E.Ausgaenge(w, vorne + Schrittausfuehrung(n, a)) == E.Ausgaenge(w, vorne) + Schrittausgang(w, n, a)
  {
    hide Schrittausfuehrung, Probe, E.Ausgang;
    var x := Schrittausfuehrung(n, a);
    if a.Rechne? {
      SchrittIst(n, a);
      AusgangIstProbe(w, n, a);
      var xs := vorne + x;
      assert xs[..|xs| - 1] == vorne;
    } else {
      assert x == [] by { KeinSchritt(n, a); }
      assert vorne + [] == vorne;
    }
  }

  lemma KeinSchritt(n: Netz, a: Aktion)
    requires |n.zustaende| == |n.letzter| && !a.Rechne?
    ensures Schrittausfuehrung(n, a) == []
  {
  }

  lemma AusgangIstProbe(w: Welt, n: Netz, a: Aktion)
    requires |n.zustaende| == |n.letzter| && a.Rechne? && a.bereich < |n.zustaende|
    ensures E.Ausgang(w, Schrittausfuehrung(n, a)[0]) == Probe(w, n, a.bereich, a.eingaben).lauf.ausgang
  {
    hide Folge, Plan;
  }

  /** The books of receipts are right after every run. */
  lemma {:induction false} LaufVerbucht(w: Welt, U: iset<Urbild>, s: nat, plan: seq<Aktion>)
    requires Sicher(w, U) && Ablauf(w, Start(s), plan).Some? && LaufBenannt(w, U, Start(s), plan)
    requires E.VerschiedeneIds(Ausgestellte(w, Start(s), plan))
    ensures Verbucht(w, U, Ablauf(w, Start(s), plan).wert, Ausgestellte(w, Start(s), plan))
    ensures Zustellbar(w, s, Ausgestellte(w, Start(s), plan))
  {
    hide Tritt, Verbucht, LaufBenannt, Sicher, E.PlanBenannt, Ausgestellte, Probe, Zustellbar, E.VerschiedeneIds,
      Schrittausgang;
    if plan == [] {
      assert VerbrauchtU in U by { Mitbenannt(w, U, Start(s), plan); }
      AnfangVerbucht(w, U, s);
    } else {
      var k := |plan| - 1;
      var n, alle := Ablauf(w, Start(s), plan[..k]).wert, Ausgestellte(w, Start(s), plan[..k]);
      Laufstueck(w, U, s, plan);
      if plan[k].Rechne? {
        var i, e := plan[k].bereich, plan[k].eingaben;
        var aus := Probe(w, n, i, e).lauf.ausgang;
        assert aus == Schrittausgang(w, n, plan[k]) by { Ausgegeben(w, n, plan[k]); }
        IdsVorne(alle, aus);
        LaufVerbucht(w, U, s, plan[..k]);
        BlockVerbucht(w, U, n, plan[k], alle);
        ProbeZustellbar(w, n, i, e);
        ZustellbarVerkettet(w, s, alle, aus);
      } else {
        assert Schrittausgang(w, n, plan[k]) == [] by { NichtsAusgegeben(w, n, plan[k]); }
        assert alle + [] == alle;
        LaufVerbucht(w, U, s, plan[..k]);
        SchlussVerbucht(w, U, n, alle);
      }
    }
  }

  lemma Ausgegeben(w: Welt, n: Netz, a: Aktion)
    requires |n.zustaende| == |n.letzter| && Moeglich(w, n, a) && a.Rechne?
    ensures Schrittausgang(w, n, a) == Probe(w, n, a.bereich, a.eingaben).lauf.ausgang
  {
    hide Probe;
  }

  lemma NichtsAusgegeben(w: Welt, n: Netz, a: Aktion)
    requires |n.zustaende| == |n.letzter| && Moeglich(w, n, a) && !a.Rechne?
    ensures Schrittausgang(w, n, a) == []
  {
  }

  lemma Mitbenannt(w: Welt, U: iset<Urbild>, n: Netz, plan: seq<Aktion>)
    requires |n.zustaende| == |n.letzter| && Ablauf(w, n, plan).Some? && LaufBenannt(w, U, n, plan)
    ensures VerbrauchtU in U
  {
  }

  lemma AnfangVerbucht(w: Welt, U: iset<Urbild>, s: nat)
    requires Sicher(w, U) && VerbrauchtU in U
    ensures Verbucht(w, U, Start(s), []) && Ausgestellte(w, Start(s), []) == [] && Zustellbar(w, s, [])
  {
  }

  lemma IdsVorne(xs: seq<Quittung>, ys: seq<Quittung>)
    requires E.VerschiedeneIds(xs + ys)
    ensures E.VerschiedeneIds(xs)
  {
    assert forall i :: 0 <= i < |xs| ==> (xs + ys)[i] == xs[i];
  }

  lemma SchlussVerbucht(w: Welt, U: iset<Urbild>, n: Netz, alle: seq<Quittung>)
    requires |n.zustaende| == |n.letzter| && Verbucht(w, U, n, alle)
    ensures Verbucht(w, U, Tritt(w, n, Schliesse), alle)
  {
    hide Tritt, BereichVerbucht;
    SchlussLaesst(w, n);
    var n' := Tritt(w, n, Schliesse);
    forall t | 0 <= t < |n'.zustaende| ensures BereichVerbucht(w, U, n', alle, t) {
      assert BereichVerbucht(w, U, n, alle, t);
      BereichGleich(w, U, n, n', alle, t);
    }
  }

  lemma BereichGleich(w: Welt, U: iset<Urbild>, n: Netz, n': Netz, alle: seq<Quittung>, t: nat)
    requires n'.zustaende == n.zustaende && n'.offen == n.offen
    requires t < |n.zustaende| && BereichVerbucht(w, U, n, alle, t)
    ensures BereichVerbucht(w, U, n', alle, t)
  {
  }

  lemma ProbeZustellbar(w: Welt, n: Netz, i: nat, e: Eingaben)
    requires i < |n.zustaende| == |n.letzter|
    ensures Zustellbar(w, |n.zustaende|, Probe(w, n, i, e).lauf.ausgang)
  {
    hide Folge, Plan, Vorschlag;
    var b := BlockVon(w, n, i, e);
    FolgeStelltZustellbarAus(w, b, Anfang(n.zustaende[i]), Plan(e));
  }

  lemma ZustellbarVerkettet(w: Welt, s: int, xs: seq<Quittung>, ys: seq<Quittung>)
    requires Zustellbar(w, s, xs) && Zustellbar(w, s, ys)
    ensures Zustellbar(w, s, xs + ys)
  {
  }

  /** Exactly once: after every run each receipt ever issued to a shard is either under way or
      redeemed there, and never both; no other shard has redeemed it; and as long as it is under
      way, its shard can redeem it in its next block. */
  lemma GenauEinmal(w: Welt, U: iset<Urbild>, s: nat, plan: seq<Aktion>, q: Quittung)
    requires Sicher(w, U) && Ablauf(w, Start(s), plan).Some? && LaufBenannt(w, U, Start(s), plan)
    requires Ungewickelt(Ausfuehrungen(w, Start(s), plan))
    requires q in Ausgestellte(w, Start(s), plan) && 0 <= q.nachBereich < s
    ensures var n := Ablauf(w, Start(s), plan).wert;
      && (q in n.offen <==> !Eingeloest(w, n.zustaende[q.nachBereich].baum, q.id))
      && (forall t :: 0 <= t < s && t != q.nachBereich ==> !Eingeloest(w, n.zustaende[t].baum, q.id))
      && (q in n.offen <==> Moeglich(w, n, Rechne(q.nachBereich, Eingaben([q], [], []), map[])))
  {
    hide Ablauf, Ungewickelt, LaufBenannt, Ausgestellte, Ausfuehrungen, Eingeloest, Erledigt, E.VerschiedeneIds,
      Moeglich, Sicher;
    var n, alle := Ablauf(w, Start(s), plan).wert, Ausgestellte(w, Start(s), plan);
    NetzStelltEinmalAus(w, U, s, plan);
    LaufVerbucht(w, U, s, plan);
    L.AblaufVoll(w, s, plan);
    assert QuittungSchluesselU(q.id) in U by { AusgestelltBenannt(w, U, s, plan, q); }
    forall t | 0 <= t < s ensures Eingeloest(w, n.zustaende[t].baum, q.id) <==> t == q.nachBereich && q !in n.offen {
      assert BereichVerbucht(w, U, n, alle, t);
      EineMitId(alle, n.offen, q, t);
    }
    if q in n.offen { EinloesungGelingt(w, n, q); }
    else { NichtOffenNichtMoeglich(w, n, q); }
  }

  lemma AusgestelltBenannt(w: Welt, U: iset<Urbild>, s: nat, plan: seq<Aktion>, q: Quittung)
    requires Ablauf(w, Start(s), plan).Some? && LaufBenannt(w, U, Start(s), plan)
    requires q in Ausgestellte(w, Start(s), plan)
    ensures QuittungSchluesselU(q.id) in U
  {
    hide Ausfuehrungen, Ablauf;
  }

  lemma EineMitId(alle: seq<Quittung>, offen: multiset<Quittung>, q: Quittung, t: int)
    requires E.VerschiedeneIds(alle) && q in alle
    ensures Erledigt(offen, alle, t, q.id) <==> t == q.nachBereich && q !in offen
  {
    forall x | x in alle && x.id == q.id ensures x == q {
      var i :| 0 <= i < |alle| && alle[i] == x;
      var j :| 0 <= j < |alle| && alle[j] == q;
      assert i == j;
    }
  }

  /** Redeeming an open, unredeemed receipt at its shard does not abort. */
  lemma EinloesungGelingt(w: Welt, n: Netz, q: Quittung)
    requires |n.zustaende| == |n.letzter| && 0 <= q.nachBereich < |n.zustaende| && q in n.offen
    requires n.zustaende[q.nachBereich].Voll? && !Eingeloest(w, n.zustaende[q.nachBereich].baum, q.id)
    requires q.betrag > 0 && q.nachBereich == w.bereichVon(q.an, |n.zustaende|)
    ensures Moeglich(w, n, Rechne(q.nachBereich, Eingaben([q], [], []), map[]))
  {
    hide Eingeloest, Verbrauche, Gutschrift, Vorschlag;
    var i, e := q.nachBereich, Eingaben([q], [], []);
    var b := BlockVon(w, n, i, e);
    var z := n.zustaende[i];
    assert Plan(e) == [Einloesung(q)];
    assert multiset(e.eingang) == multiset{q};
    E.VerbraucheVoll(w, z, q.id);
    assert Tue(w, b, Anfang(z), Einloesung(q)).Weiter?;
    assert Plan(e)[1..] == [];
    assert Probe(w, n, i, e) == Folge(w, b, Anfang(z), Plan(e));
    assert Folge(w, b, Anfang(z), Plan(e)) == Weiter(Tue(w, b, Anfang(z), Einloesung(q)).lauf);
    assert q in multiset(e.eingang);
  }

  lemma NichtOffenNichtMoeglich(w: Welt, n: Netz, q: Quittung)
    requires |n.zustaende| == |n.letzter| && 0 <= q.nachBereich && q !in n.offen
    ensures !Moeglich(w, n, Rechne(q.nachBereich, Eingaben([q], [], []), map[]))
  {
    hide Probe;
    assert q in multiset([q]);
  }
}
