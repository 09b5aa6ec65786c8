/**
 The whole network as a state machine: shards execute blocks, receipts travel
 between them, epochs close. Money is conserved, basic income stays covered and
 no machine addition wraps, in every run.
 */
module Netz {
  import opened Typen
  import opened Uebergang
  import opened Geld
  import opened Bereich
  import opened Sammel
  import S = Smt

  // ---- receipts under way ---------------------------------------------------------------

  ghost function Offensumme(m: multiset<Quittung>): int
    decreases |m|
  {
    if m == multiset{} then 0 else var q :| q in m; q.betrag + Offensumme(m - multiset{q})
  }

  lemma {:induction false} OffenOhne(m: multiset<Quittung>, q: Quittung)
    requires q in m
    ensures Offensumme(m) == q.betrag + Offensumme(m - multiset{q})
    decreases |m|
  {
    var p :| p in m && Offensumme(m) == p.betrag + Offensumme(m - multiset{p});
    if p != q {
      OffenOhne(m - multiset{p}, q);
      OffenOhne(m - multiset{q}, p);
      assert m - multiset{p} - multiset{q} == m - multiset{q} - multiset{p};
    }
  }

  lemma {:induction false} OffenPlus(m: multiset<Quittung>, qs: seq<Quittung>)
    ensures Offensumme(m + multiset(qs)) == Offensumme(m) + Betraege(qs)
  {
    if qs == [] {
      assert m + multiset(qs) == m;
    } else {
      var n := |qs| - 1;
      OffenPlus(m, qs[..n]);
      assert qs == qs[..n] + [qs[n]];
      assert m + multiset(qs) - multiset{qs[n]} == m + multiset(qs[..n]);
      OffenOhne(m + multiset(qs), qs[n]);
    }
  }

  lemma OffenMinus(m: multiset<Quittung>, qs: seq<Quittung>)
    requires multiset(qs) <= m
    ensures Offensumme(m - multiset(qs)) == Offensumme(m) - Betraege(qs)
  {
    OffenPlus(m - multiset(qs), qs);
    assert m - multiset(qs) + multiset(qs) == m;
  }

  lemma {:induction false} OffenNichtnegativ(m: multiset<Quittung>)
    requires forall q :: q in m ==> q.betrag > 0
    ensures Offensumme(m) >= 0
    decreases |m|
  {
    if m != multiset{} {
      var q :| q in m && Offensumme(m) == q.betrag + Offensumme(m - multiset{q});
      OffenNichtnegativ(m - multiset{q});
    }
  }

  // ---- states and steps --------------------------------------------------------------------

  datatype Netz = Netz(
    zustaende: seq<Zustand>, letzter: seq<Option<BereichsBlock>>, offen: multiset<Quittung>,
    sammel: Sammelblock, bloecke: seq<BereichsBlock>)

  /** A shard executes a block, signed by its committee; or the epoch closes. */
  datatype Aktion = Rechne(bereich: nat, eingaben: Eingaben, sig: map<string, seq<int>>) | Schliesse

  function Start(s: nat): Netz {
    Netz(seq(s, _ => NEU), seq(s, _ => None), multiset{}, ANFANG, [])
  }

  function RahmenVon(n: Netz): Rahmen { RahmenAus(n.sammel, |n.zustaende|) }

  ghost function Geldmenge(z: Zustand): int { Summe(z.konten, Guthaben) }

  ghost function Menschen(z: Zustand): int { Summe(z.konten, Geld.Kopf) }

  /** What the shards report at the end of an epoch. */
  ghost function Geldmengen(n: Netz): seq<Int64> {
    seq(|n.zustaende|, i requires 0 <= i < |n.zustaende| => Wrap(Geldmenge(n.zustaende[i])))
  }

  ghost function Menschenzahlen(n: Netz): seq<int> {
    seq(|n.zustaende|, i requires 0 <= i < |n.zustaende| => Menschen(n.zustaende[i]))
  }

  /** The block an honest committee proposes, before execution. */
  function Vorschlag(n: Netz, bereich: nat, e: Eingaben, sig: map<string, seq<int>>): BereichsBlock
    requires bereich < |n.zustaende| == |n.letzter|
  {
    var nr, vor := if n.letzter[bereich].Some? then (n.letzter[bereich].wert.nr + 1) % ZWEI64 else 0,
                   if n.letzter[bereich].Some? then n.letzter[bereich].wert.nach
                   else S.Wurzel(n.zustaende[bereich].baum);
    BereichsBlock(bereich, (n.sammel.epoche + 1) % ZWEI64, nr, vor, NULL, RahmenVon(n), e, [], NULLSUMME, 0, 0,
                  sig, map[])
  }

  function Probe(w: Welt, n: Netz, bereich: nat, e: Eingaben): Schritt
    requires bereich < |n.zustaende| == |n.letzter|
  {
    var b := Vorschlag(n, bereich, e, map[]);
    Ausfuehren(w, Block(bereich, RahmenVon(n), EingabenID(w, b)), n.zustaende[bereich], e)
  }

  /** The block after execution, as an honest committee publishes it. */
  ghost function Ehrlich(w: Welt, n: Netz, a: Aktion): BereichsBlock
    requires a.Rechne? && a.bereich < |n.zustaende| == |n.letzter|
  {
    var l := Probe(w, n, a.bereich, a.eingaben).lauf;
    Vorschlag(n, a.bereich, a.eingaben, a.sig).(
      nach := S.Wurzel(l.z.baum), ausgang := l.ausgang, teilsumme := l.t,
      geldmenge := Wrap(Geldmenge(l.z)), menschen := Menschen(l.z))
  }

  /** A block redeems receipts that are under way, and its inputs are admissible. */
  predicate Moeglich(w: Welt, n: Netz, a: Aktion)
    requires |n.zustaende| == |n.letzter|
  {
    a.Rechne? ==>
      && a.bereich < |n.zustaende|
      && multiset(a.eingaben.eingang) <= n.offen
      && Probe(w, n, a.bereich, a.eingaben).Weiter?
  }

  ghost function Tritt(w: Welt, n: Netz, a: Aktion): Netz
    requires |n.zustaende| == |n.letzter| && Moeglich(w, n, a)
  {
    match a
    case Rechne(i, e, _) =>
      var l := Probe(w, n, i, e).lauf;
      Netz(n.zustaende[i := l.z], n.letzter[i := Some(Ehrlich(w, n, a))],
           n.offen - multiset(e.eingang) + multiset(l.ausgang), n.sammel, n.bloecke + [Ehrlich(w, n, a)])
    case Schliesse =>
      n.(sammel := Naechster(w, n.sammel, Geldmengen(n), Menschenzahlen(n), n.bloecke, Wrap(Offensumme(n.offen))),
         bloecke := [])
  }

  /** The state after a run; None if a step was not possible. */
  ghost function Ablauf(w: Welt, n: Netz, plan: seq<Aktion>): Option<Netz>
    requires |n.zustaende| == |n.letzter|
    ensures Ablauf(w, n, plan).Some? ==>
      |Ablauf(w, n, plan).wert.zustaende| == |Ablauf(w, n, plan).wert.letzter| == |n.zustaende|
  {
    if plan == [] then Some(n)
    else match Ablauf(w, n, plan[..|plan| - 1])
      case None => None
      case Some(m) => var a := plan[|plan| - 1]; if Moeglich(w, m, a) then Some(Tritt(w, m, a)) else None
  }

  // ---- totals ---------------------------------------------------------------------------------

  ghost function Gesamt(zs: seq<Zustand>, f: Konto -> int): int {
    if zs == [] then 0 else Gesamt(zs[..|zs| - 1], f) + Summe(zs[|zs| - 1].konten, f)
  }

  lemma {:induction false} GesamtNachTausch(zs: seq<Zustand>, i: nat, z: Zustand, f: Konto -> int)
    requires i < |zs|
    ensures Gesamt(zs[i := z], f) == Gesamt(zs, f) - Summe(zs[i].konten, f) + Summe(z.konten, f)
  {
    var n := |zs| - 1;
    if i < n {
      GesamtNachTausch(zs[..n], i, z, f);
      assert zs[i := z][..n] == zs[..n][i := z];
    } else {
      assert zs[i := z][..n] == zs[..n];
    }
  }

  lemma {:induction false} GesamtMindestens(zs: seq<Zustand>, i: nat, f: Konto -> int)
    requires i < |zs| && forall j :: 0 <= j < |zs| ==> Summe(zs[j].konten, f) >= 0
    ensures Gesamt(zs, f) >= Summe(zs[i].konten, f)
  {
    var n := |zs| - 1;
    if n > 0 {
      GesamtMindestens(zs[..n], if i < n then i else 0, f);
      if i < n { assert zs[..n][i] == zs[i]; }
      assert forall j :: 0 <= j < n ==> zs[..n][j] == zs[j];
    }
  }

  /** Earned but undistributed pool, shared-out part included. */
  function Topf(n: Netz): int { n.sammel.topf + Summiere(n.bloecke).gebuehren - Summiere(n.bloecke).geAusgezahlt }

  /** The part of the pool not yet promised to anyone. */
  function Neu(n: Netz): int { n.sammel.neuFuerGE + Summiere(n.bloecke).gebuehren }

  function Geschoepft(n: Netz): int { n.sammel.geschoepft + Summiere(n.bloecke).geschoepft }

  function Ausgestiegen(n: Netz): int { n.sammel.ausgestiegen + Summiere(n.bloecke).ausstiege }

  ghost function AlleMenschen(n: Netz): int { Gesamt(n.zustaende, Geld.Kopf) }

  /** No more people than the cover check can bear. */
  ghost predicate ImRahmen(n: Netz) { AlleMenschen(n) < MENSCHENGRENZE }

  /** What every reachable state keeps. */
  ghost predicate Erhaltung(n: Netz) {
    && |n.zustaende| == |n.letzter|
    && 0 <= n.sammel.geKumuliert
    && AlleOrdentlich(n.sammel.geKumuliert, n.zustaende)
    && (forall q :: q in n.offen ==> q.betrag > 0)
    && Bilanz(n)
    && forall i :: 0 <= i < |n.letzter| ==> Angeschlossen(n.zustaende[i], n.letzter[i])
  }

  ghost predicate AlleOrdentlich(g: int, zs: seq<Zustand>) {
    forall i :: 0 <= i < |zs| ==> zs[i].Voll? && Ordentlich(g, zs[i].konten)
  }

  /** Money in accounts, receipts and pool is what was created less what left; the pool
      is what is unpromised plus what is promised and unpaid. */
  ghost predicate Bilanz(n: Netz) {
    && Gesamt(n.zustaende, Guthaben) + Offensumme(n.offen) + Topf(n) == Geschoepft(n) - Ausgestiegen(n)
    && Topf(n) - Neu(n) == Gesamt(n.zustaende, Anspruch(n.sammel.geKumuliert))
    && Neu(n) >= 0 && Ausgestiegen(n) >= 0
    && Geschoepft(n) == GRUNDBETRAG * AlleMenschen(n)
  }

  /** The last block of a shard tells its present root, money and people. */
  ghost predicate Angeschlossen(z: Zustand, b: Option<BereichsBlock>) {
    match b
    case None => z == NEU
    case Some(b) => b.nach == S.Wurzel(z.baum) && b.geldmenge == Geldmenge(z) && b.menschen == Menschen(z)
  }

  // ---- one block keeps the books -----------------------------------------------------------------

  lemma StartErhaelt(s: nat)
    ensures Erhaltung(Start(s))
  {
    forall f: Konto -> int ensures Gesamt(Start(s).zustaende, f) == 0 { GesamtLeer(s, f); }
    assert Gesamt(Start(s).zustaende, Guthaben) == 0;
  }

  lemma {:induction false} GesamtLeer(s: nat, f: Konto -> int)
    ensures Gesamt(seq(s, _ => NEU), f) == 0
  {
    if s > 0 {
      GesamtLeer(s - 1, f);
      assert seq(s, _ => NEU)[..s - 1] == seq(s - 1, _ => NEU);
    }
  }

  lemma {:induction false} EingangsrestPlan(e: Eingaben)
    ensures Eingangsrest(Plan(e)) == Betraege(e.eingang)
    decreases |e.eingang|
  {
    var plan := Plan(e);
    if e.eingang == [] {
      OhneEingang(plan);
    } else {
      var n := |e.eingang| - 1;
      var e' := e.(eingang := e.eingang[..n]);
      EingangsrestPlan(e');
      EingangsrestOhne(plan, n);
      assert plan[..n] + plan[n + 1..] == Plan(e');
    }
  }

  lemma {:induction false} OhneEingang(plan: seq<Eingabe>)
    requires forall e :: e in plan ==> !e.Einloesung?
    ensures Eingangsrest(plan) == 0
  {
    if plan != [] { OhneEingang(plan[1..]); }
  }

  lemma {:induction false} EingangsrestOhne(plan: seq<Eingabe>, i: nat)
    requires i < |plan|
    ensures Eingangsrest(plan) == Eingangsrest(plan[..i] + plan[i + 1..]) + EingangsBetrag(plan[i])
  {
    if i == 0 {
      assert plan[..0] + plan[1..] == plan[1..];
    } else {
      EingangsrestOhne(plan[1..], i - 1);
      assert (plan[..i] + plan[i + 1..])[1..] == plan[1..][..i - 1] + plan[1..][i..];
    }
  }

  lemma SchrankenDesBereichs(n: Netz, i: nat)
    requires Erhaltung(n) && i < |n.zustaende|
    ensures var z, g := n.zustaende[i], n.sammel.geKumuliert;
      && 0 <= Geldmenge(z) <= Gesamt(n.zustaende, Guthaben)
      && 0 <= Summe(z.konten, Anspruch(g)) <= Gesamt(n.zustaende, Anspruch(g))
      && 0 <= Menschen(z) <= AlleMenschen(n)
    ensures Offensumme(n.offen) >= 0
  {
    hide Summe, Gesamt, Ordentlich, Anspruch, Geld.Kopf, Guthaben;
    var g := n.sammel.geKumuliert;
    forall j | 0 <= j < |n.zustaende|
      ensures Summe(n.zustaende[j].konten, Guthaben) >= 0 && Summe(n.zustaende[j].konten, Anspruch(g)) >= 0
        && Summe(n.zustaende[j].konten, Geld.Kopf) >= 0
    {
      Nichtnegativ(g, n.zustaende[j].konten);
    }
    GesamtMindestens(n.zustaende, i, Guthaben);
    GesamtMindestens(n.zustaende, i, Anspruch(g));
    GesamtMindestens(n.zustaende, i, Geld.Kopf);
    OffenNichtnegativ(n.offen);
  }

  /** Totals of shard i, and the receipts a block is to redeem there. */
  ghost function StandVon(n: Netz, i: nat, e: Eingaben): Stand
    requires i < |n.zustaende|
  {
    var z := n.zustaende[i];
    Stand(Geldmenge(z), Summe(z.konten, Anspruch(n.sammel.geKumuliert)), Betraege(e.eingang), Menschen(z))
  }

  /** The shard's context for the inputs of a step. */
  function BlockVon(w: Welt, n: Netz, i: nat, e: Eingaben): Block
    requires i < |n.zustaende| == |n.letzter|
  {
    Block(i, RahmenVon(n), EingabenID(w, Vorschlag(n, i, e, map[])))
  }

  /** A possible block starts on balanced books, and the money stays below the limit throughout. */
  lemma BlockBeginnt(w: Welt, n: Netz, i: nat, e: Eingaben)
    requires Erhaltung(n) && Moeglich(w, n, Rechne(i, e, map[]))
    requires AlleMenschen(n) + Probe(w, n, i, e).lauf.t.neueMenschen < MENSCHENGRENZE
    ensures Ausgeglichen(BlockVon(w, n, i, e), StandVon(n, i, e), Anfang(n.zustaende[i]), Eingangsrest(Plan(e)))
    ensures Begrenzt(StandVon(n, i, e), Probe(w, n, i, e).lauf.t.neueMenschen)
    ensures forall x :: x in Plan(e) ==> EingangsBetrag(x) >= 0
    ensures Betraege(e.eingang) <= Offensumme(n.offen)
  {
    hide Summe, Gesamt, Ordentlich, Anspruch, Folge, Plan, Summiere, Ausgeglichen;
    SchrankenDesBereichs(n, i);
    OffenMinus(n.offen, e.eingang);
    OffenNichtnegativ(n.offen - multiset(e.eingang));
    EingaengePositiv(n.offen, e);
    EingangsrestPlan(e);
    EingangsrestNichtnegativ(Plan(e));
    AnfangAusgeglichen(BlockVon(w, n, i, e), StandVon(n, i, e), n.zustaende[i]);
  }

  /** Executing a possible block balances that shard's books. */
  lemma BlockAusgeglichen(w: Welt, n: Netz, i: nat, e: Eingaben)
    requires Erhaltung(n) && Moeglich(w, n, Rechne(i, e, map[]))
    requires AlleMenschen(n) + Probe(w, n, i, e).lauf.t.neueMenschen < MENSCHENGRENZE
    ensures Ausgeglichen(BlockVon(w, n, i, e), StandVon(n, i, e), Probe(w, n, i, e).lauf, 0)
    ensures Betraege(e.eingang) <= Offensumme(n.offen)
  {
    hide Folge, Plan, Ausgeglichen, Begrenzt, StandVon, Betraege, Offensumme, Bilanz, AlleOrdentlich, Angeschlossen;
    BlockBeginnt(w, n, i, e);
    FolgeBilanz(w, BlockVon(w, n, i, e), StandVon(n, i, e), Anfang(n.zustaende[i]), Plan(e));
  }

  lemma AnfangAusgeglichen(b: Block, s: Stand, z: Zustand)
    requires z.Voll? && 0 <= b.rahmen.geKumuliert && Ordentlich(b.rahmen.geKumuliert, z.konten) && 0 <= s.eingang
    requires s.geld == Geldmenge(z) && s.anspruch == Summe(z.konten, Anspruch(b.rahmen.geKumuliert))
    requires s.menschen == Menschen(z)
    ensures Ausgeglichen(b, s, Anfang(z), s.eingang)
  {
    hide Summe, Ordentlich;
    Nichtnegativ(b.rahmen.geKumuliert, z.konten);
  }

  lemma EingaengePositiv(offen: multiset<Quittung>, e: Eingaben)
    requires multiset(e.eingang) <= offen && forall q :: q in offen ==> q.betrag > 0
    ensures forall x :: x in Plan(e) ==> EingangsBetrag(x) >= 0
  {
    forall i | 0 <= i < |e.eingang| ensures e.eingang[i].betrag > 0 {
      assert e.eingang[i] in multiset(e.eingang);
    }
  }

  lemma SummiereMit(bs: seq<BereichsBlock>, b: BereichsBlock)
    ensures Summiere(bs + [b]) == Epochensumme(
      Summiere(bs).gebuehren + b.teilsumme.gebuehren, Summiere(bs).geAusgezahlt + b.teilsumme.geAusgezahlt,
      Summiere(bs).geschoepft + b.teilsumme.geschoepft, Summiere(bs).ausstiege + b.teilsumme.ausstiege)
  {
    assert (bs + [b])[..|bs|] == bs;
  }

  lemma BlockErhaelt(w: Welt, n: Netz, a: Aktion)
    requires Erhaltung(n) && a.Rechne? && Moeglich(w, n, a)
    requires ImRahmen(Tritt(w, n, a))
    ensures Erhaltung(Tritt(w, n, a))
  {
    hide Summe, Gesamt, Ordentlich, AlleOrdentlich, Anspruch, Summiere, Betraege, Probe, Vorschlag, Bilanz,
      Angeschlossen, Ausgeglichen, Moeglich, Tritt;
    var i, e := a.bereich, a.eingaben;
    BlockStellt(w, n, a);
    var l := Probe(w, n, i, e).lauf;
    BlockAusgeglichen(w, n, i, e);
    BlockBilanz(w, n, a);
    BlockOffen(w, n, a);
    BlockOrdentlich(w, n, a);
    BlockAngeschlossen(w, n, a);
  }

  /** The step changes one shard, and counts its new humans. */
  lemma BlockStellt(w: Welt, n: Netz, a: Aktion)
    requires Erhaltung(n) && a.Rechne? && Moeglich(w, n, a)
    ensures a.bereich < |n.zustaende| && Moeglich(w, n, Rechne(a.bereich, a.eingaben, map[]))
    ensures var l, n' := Probe(w, n, a.bereich, a.eingaben).lauf, Tritt(w, n, a);
      && |n'.zustaende| == |n'.letzter| == |n.zustaende| && n'.sammel == n.sammel
      && n'.zustaende == n.zustaende[a.bereich := l.z]
      && AlleMenschen(n') == AlleMenschen(n) + l.t.neueMenschen && l.t.neueMenschen >= 0
  {
    hide Summe, Gesamt, Ordentlich, Anspruch, Summiere, Betraege, Probe, Vorschlag, Bilanz, Angeschlossen, Ehrlich;
    NeueZaehlen(w, n, a.bereich, a.eingaben);
    GesamtNachTausch(n.zustaende, a.bereich, Probe(w, n, a.bereich, a.eingaben).lauf.z, Geld.Kopf);
  }

  lemma BlockOffen(w: Welt, n: Netz, a: Aktion)
    requires |n.zustaende| == |n.letzter| && a.Rechne? && Moeglich(w, n, a) && forall q :: q in n.offen ==> q.betrag > 0
    requires Ausgeglichen(BlockVon(w, n, a.bereich, a.eingaben), StandVon(n, a.bereich, a.eingaben),
                          Probe(w, n, a.bereich, a.eingaben).lauf, 0)
    ensures forall q :: q in Tritt(w, n, a).offen ==> q.betrag > 0
  {
    hide Summe, Ordentlich, Anspruch, Betraege, Probe, Vorschlag, Ehrlich, StandVon;
    var l, n' := Probe(w, n, a.bereich, a.eingaben).lauf, Tritt(w, n, a);
    forall q | q in n'.offen ensures q.betrag > 0 {
      if q !in n.offen { assert q in multiset(l.ausgang); assert q in l.ausgang; }
    }
  }

  lemma BlockOrdentlich(w: Welt, n: Netz, a: Aktion)
    requires |n.zustaende| == |n.letzter| && a.Rechne? && Moeglich(w, n, a)
    requires AlleOrdentlich(n.sammel.geKumuliert, n.zustaende)
    requires Ausgeglichen(BlockVon(w, n, a.bereich, a.eingaben), StandVon(n, a.bereich, a.eingaben),
                          Probe(w, n, a.bereich, a.eingaben).lauf, 0)
    ensures AlleOrdentlich(n.sammel.geKumuliert, Tritt(w, n, a).zustaende)
  {
    hide Summe, Ordentlich, Anspruch, Betraege, Probe, Vorschlag, Ehrlich, StandVon;
  }

  lemma BlockAngeschlossen(w: Welt, n: Netz, a: Aktion)
    requires Erhaltung(n) && a.Rechne? && Moeglich(w, n, a)
    requires AlleMenschen(n) + Probe(w, n, a.bereich, a.eingaben).lauf.t.neueMenschen < MENSCHENGRENZE
    requires Ausgeglichen(BlockVon(w, n, a.bereich, a.eingaben), StandVon(n, a.bereich, a.eingaben),
                          Probe(w, n, a.bereich, a.eingaben).lauf, 0)
    requires Betraege(a.eingaben.eingang) <= Offensumme(n.offen)
    ensures forall i :: 0 <= i < |Tritt(w, n, a).letzter| ==>
      i < |Tritt(w, n, a).zustaende| && Angeschlossen(Tritt(w, n, a).zustaende[i], Tritt(w, n, a).letzter[i])
  {
    hide Summe, Gesamt, Ordentlich, AlleOrdentlich, Anspruch, Betraege, Probe, Vorschlag, Ausgeglichen, Bilanz,
      S.Wurzel, BlockVon, StandVon;
    var l := Probe(w, n, a.bereich, a.eingaben).lauf;
    BlockGeldmenge(n, a.bereich, a.eingaben, l, BlockVon(w, n, a.bereich, a.eingaben));
    assert Wrap(Geldmenge(l.z)) == Geldmenge(l.z);
    var n' := Tritt(w, n, a);
    forall i | 0 <= i < |n'.letzter| ensures i < |n'.zustaende| && Angeschlossen(n'.zustaende[i], n'.letzter[i]) {
      assert Angeschlossen(n.zustaende[i], n.letzter[i]);
    }
  }

  /** A shard never holds more than the network's money. */
  lemma BlockGeldmenge(n: Netz, i: nat, e: Eingaben, l: Uebergang.Lauf, b: Block)
    requires Erhaltung(n) && i < |n.zustaende| && Ausgeglichen(b, StandVon(n, i, e), l, 0)
    requires Betraege(e.eingang) <= Offensumme(n.offen)
    requires AlleMenschen(n) + l.t.neueMenschen < MENSCHENGRENZE
    ensures 0 <= Geldmenge(l.z) < DECKUNGSGRENZE
  {
    hide Summe, Gesamt, Ordentlich, Anspruch, Summiere, Betraege;
    SchrankenDesBereichs(n, i);
    Nichtnegativ(b.rahmen.geKumuliert, l.z.konten);
  }

  /** How the totals move when shard i goes to l. */
  lemma SummenNachBlock(w: Welt, n: Netz, a: Aktion, f: Konto -> int)
    requires a.Rechne? && |n.zustaende| == |n.letzter| && Moeglich(w, n, a)
    ensures var l, n' := Probe(w, n, a.bereich, a.eingaben).lauf, Tritt(w, n, a);
      && Gesamt(n'.zustaende, f)
           == Gesamt(n.zustaende, f) - Summe(n.zustaende[a.bereich].konten, f) + Summe(l.z.konten, f)
      && Offensumme(n'.offen) == Offensumme(n.offen) - Betraege(a.eingaben.eingang) + Betraege(l.ausgang)
      && Topf(n') == Topf(n) + l.t.gebuehren - l.t.geAusgezahlt
      && Neu(n') == Neu(n) + l.t.gebuehren
      && Geschoepft(n') == Geschoepft(n) + l.t.geschoepft
      && Ausgestiegen(n') == Ausgestiegen(n) + l.t.ausstiege
      && n'.sammel == n.sammel
  {
    hide Summe, Gesamt, Summiere, Betraege, Probe, S.Wurzel, Vorschlag;
    var i, e := a.bereich, a.eingaben;
    var l := Probe(w, n, i, e).lauf;
    GesamtNachTausch(n.zustaende, i, l.z, f);
    OffenMinus(n.offen, e.eingang);
    OffenPlus(n.offen - multiset(e.eingang), l.ausgang);
    SummiereMit(n.bloecke, Ehrlich(w, n, a));
  }

  lemma BlockBilanz(w: Welt, n: Netz, a: Aktion)
    requires Erhaltung(n) && a.Rechne? && Moeglich(w, n, a)
    requires Ausgeglichen(BlockVon(w, n, a.bereich, a.eingaben), StandVon(n, a.bereich, a.eingaben),
                          Probe(w, n, a.bereich, a.eingaben).lauf, 0)
    ensures Bilanz(Tritt(w, n, a))
  {
    hide Summe, Gesamt, Ordentlich, AlleOrdentlich, Anspruch, Betraege, Probe, Vorschlag, Angeschlossen, Tritt,
      Moeglich,
      Topf, Neu, Geschoepft, Ausgestiegen, Offensumme, EingabenID;
    SummenNachBlock(w, n, a, Guthaben);
    SummenNachBlock(w, n, a, Geld.Kopf);
    SummenNachBlock(w, n, a, Anspruch(n.sammel.geKumuliert));
  }

  lemma NeueZaehlen(w: Welt, n: Netz, i: nat, e: Eingaben)
    requires |n.zustaende| == |n.letzter| && i < |n.zustaende| && n.zustaende[i].Voll?
    ensures Probe(w, n, i, e).lauf.z.Voll?
    ensures Menschen(Probe(w, n, i, e).lauf.z) == Menschen(n.zustaende[i]) + Probe(w, n, i, e).lauf.t.neueMenschen
    ensures Probe(w, n, i, e).lauf.t.neueMenschen >= 0
  {
    hide Summe, Folge, Plan;
    var b := BlockVon(w, n, i, e);
    FolgeZaehltKoepfe(w, b, Anfang(n.zustaende[i]), Plan(e));
    FolgeZaehltMenschen(w, b, Anfang(n.zustaende[i]), Plan(e));
  }
}
