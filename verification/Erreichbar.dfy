/**
 States that chains and runs reach from nothing: their trees always tell what their accounts
 hold, so that the verdicts on fraud proofs are exact in each of them.
 */
module Erreichbar {
  import opened Typen
  import opened Uebergang
  import opened Bereich
  import opened Gleichlauf
  import opened F = Fehlerbeweis
  import opened Netz
  import E = Einmal
  import S = Smt
  import V = Widerlegung

  /** Whatever blocks a shard executes from its beginning. */
  lemma {:induction false} KetteStimmig(w: Welt, U: iset<Urbild>, ks: seq<E.Glied>)
    requires Sicher(w, U) && E.Kette(w, NEU, ks).Some?
    requires forall k :: k in ks ==> E.PlanBenannt(Plan(k.eingaben), U)
    ensures Stimmig(w, U, E.Kette(w, NEU, ks).wert.z)
  {
    hide Stimmig, Plan, Folge, Sicher, EingabeBenannt;
    if ks == [] {
      NeuStimmig(w, U);
    } else {
      var n := |ks| - 1;
      KetteStimmig(w, U, ks[..n]);
      var z := E.Kette(w, NEU, ks[..n]).wert.z;
      FolgeStimmig(w, U, ks[n].block, Anfang(z), Plan(ks[n].eingaben));
    }
  }

  /** The inputs of every block of a run are named. */
  ghost predicate EingabenBenannt(U: iset<Urbild>, plan: seq<Aktion>) {
    forall a :: a in plan && a.Rechne? ==> E.PlanBenannt(Plan(a.eingaben), U)
  }

  /** Whatever the network does. */
  lemma {:induction false} NetzStimmig(w: Welt, U: iset<Urbild>, s: nat, plan: seq<Aktion>, i: nat)
    requires Sicher(w, U) && Ablauf(w, Start(s), plan).Some? && EingabenBenannt(U, plan) && i < s
    ensures Stimmig(w, U, Ablauf(w, Start(s), plan).wert.zustaende[i])
  {
    hide Stimmig, Plan, Sicher, E.PlanBenannt, Tritt, Probe;
    if plan == [] {
      NeuStimmig(w, U);
    } else {
      var k := |plan| - 1;
      NetzStimmig(w, U, s, plan[..k], i);
      SchrittStimmig(w, U, Ablauf(w, Start(s), plan[..k]).wert, plan[k], i);
    }
  }

  lemma SchrittStimmig(w: Welt, U: iset<Urbild>, n: Netz, a: Aktion, i: nat)
    requires Sicher(w, U) && |n.zustaende| == |n.letzter| && i < |n.zustaende| && Moeglich(w, n, a)
    requires Stimmig(w, U, n.zustaende[i]) && (a.Rechne? ==> E.PlanBenannt(Plan(a.eingaben), U))
    ensures Stimmig(w, U, Tritt(w, n, a).zustaende[i])
  {
    hide Stimmig, Plan, Folge, Sicher, EingabeBenannt, Ehrlich, Vorschlag;
    if a.Rechne? && a.bereich == i {
      var b := BlockVon(w, n, i, a.eingaben);
      FolgeStimmig(w, U, b, Anfang(n.zustaende[i]), Plan(a.eingaben));
    }
  }

  /** So in every state the network reaches the verdict on every proof with a claim is exact. */
  lemma UrteilUeberall(w: Welt, U: iset<Urbild>, s: nat, plan: seq<Aktion>, i: nat, fb: Beweisstueck, r: Rahmen)
    requires Sicher(w, U) && Ablauf(w, Start(s), plan).Some? && EingabenBenannt(U, plan) && i < s
    requires var z := Ablauf(w, Start(s), plan).wert.zustaende[i];
      AllesBenannt(w, U, z, fb.vor) && fb.block.vor == S.Wurzel(z.baum)
    requires !V.OhneBelege(fb.vor)
    ensures var z := Ablauf(w, Start(s), plan).wert.zustaende[i]; var lauf := F.Rechne(w, z, fb.block, r);
      Pruefe(w, fb, r) ==
        if fb.vor.wurzel == fb.block.vor && Wahr(w, z, fb.vor) && Genuegt(fb.vor, lauf.lauf)
        then Gueltig(!Trifft(fb.block, lauf)) else Ungueltig
  {
    hide Stimmig, Sicher, Ablauf, EingabenBenannt, AllesBenannt, Pruefe, Wahr, Genuegt, Trifft, F.Rechne;
    NetzStimmig(w, U, s, plan, i);
    UrteilGenau(w, U, Ablauf(w, Start(s), plan).wert.zustaende[i], fb, r);
  }

  /** And there a correct block is refuted exactly by a proof without claims against a block that
      looks nothing up, in a shard that is not empty. */
  lemma WiderlegtUeberall(w: Welt, U: iset<Urbild>, s: nat, plan: seq<Aktion>, i: nat, fb: Beweisstueck, r: Rahmen)
    requires Sicher(w, U) && Ablauf(w, Start(s), plan).Some? && EingabenBenannt(U, plan) && i < s
    requires var z := Ablauf(w, Start(s), plan).wert.zustaende[i];
      && AllesBenannt(w, U, z, fb.vor) && fb.block.vor == S.Wurzel(z.baum)
      && Trifft(fb.block, F.Rechne(w, z, fb.block, r))
    ensures Pruefe(w, fb, r) == Gueltig(true) <==>
      && V.OhneBelege(fb.vor) && fb.vor.wurzel == fb.block.vor && fb.block.vor != NULL
      && V.OhneZugriff(w, Kontext(w, fb.block, r), Plan(fb.block.eingaben))
  {
    hide Stimmig, Sicher, Ablauf, EingabenBenannt, AllesBenannt, Pruefe, Trifft, F.Rechne, Plan, V.OhneZugriff;
    NetzStimmig(w, U, s, plan, i);
    V.KorrekterBlockWiderlegtGenau(w, U, Ablauf(w, Start(s), plan).wert.zustaende[i], fb, r);
  }

  /** In every state the network reaches every block on it, right or wrong, has a proof that decides it. */
  lemma EntscheidbarUeberall(w: Welt, U: iset<Urbild>, s: nat, plan: seq<Aktion>, i: nat, b: BereichsBlock, r: Rahmen,
                             a: string)
    requires Sicher(w, U) && Ablauf(w, Start(s), plan).Some? && EingabenBenannt(U, plan) && i < s
    requires b.vor == S.Wurzel(Ablauf(w, Start(s), plan).wert.zustaende[i].baum)
    requires E.PlanBenannt(Plan(b.eingaben), U) && KontoSchluesselU(a) in U
    ensures var z := Ablauf(w, Start(s), plan).wert.zustaende[i];
      Pruefe(w, V.VollerBeweis(w, z, b, r, a), r) == Gueltig(!Trifft(b, F.Rechne(w, z, b, r)))
  {
    hide Stimmig, Sicher, Ablauf, EingabenBenannt, Pruefe, Trifft, F.Rechne, Plan, V.VollerBeweis, EingabeBenannt;
    NetzStimmig(w, U, s, plan, i);
    V.JederBlockEntscheidbar(w, U, Ablauf(w, Start(s), plan).wert.zustaende[i], b, r, a);
  }

  // ---- blocks of a run ------------------------------------------------------------------------

  /** The block b stands where the step a puts one, and holds its inputs; what it claims, and which
      frame it carries, is open. */
  predicate GleicherVorschlag(n: Netz, a: Aktion, b: BereichsBlock)
    requires a.Rechne? && a.bereich < |n.zustaende| == |n.letzter|
  {
    var v := Vorschlag(n, a.bereich, a.eingaben, a.sig);
    b.bereich == v.bereich && b.epoche == v.epoche && b.nr == v.nr && b.vor == v.vor && b.eingaben == v.eingaben
  }

  /** Such a block claims something else than came out of the step. */
  ghost predicate Abweichend(w: Welt, n: Netz, a: Aktion, b: BereichsBlock)
    requires a.Rechne? && a.bereich < |n.zustaende| == |n.letzter|
  {
    var z' := Probe(w, n, a.bereich, a.eingaben).lauf;
    b.nach != S.Wurzel(z'.z.baum) || b.teilsumme != z'.t || b.ausgang != z'.ausgang
  }

  /** Recomputing a block under the frame of the last epoch block is what its shard did. */
  lemma RechneIstProbe(w: Welt, n: Netz, a: Aktion, b: BereichsBlock)
    requires a.Rechne? && a.bereich < |n.zustaende| == |n.letzter| && GleicherVorschlag(n, a, b)
    ensures F.Rechne(w, n.zustaende[a.bereich], b, RahmenVon(n)) == Probe(w, n, a.bereich, a.eingaben)
  {
    hide Ausfuehren;
  }

  /** The honest block has the outcome it claims, under the frame of the last epoch block. */
  lemma EhrlichTrifft(w: Welt, n: Netz, a: Aktion)
    requires a.Rechne? && |n.zustaende| == |n.letzter| && Moeglich(w, n, a)
    ensures GleicherVorschlag(n, a, Ehrlich(w, n, a)) && !Abweichend(w, n, a, Ehrlich(w, n, a))
    ensures Ehrlich(w, n, a).rahmen == Rahmen(|n.zustaende|, n.sammel.geKumuliert, n.sammel.grenze)
    ensures Trifft(Ehrlich(w, n, a), F.Rechne(w, n.zustaende[a.bereich], Ehrlich(w, n, a), RahmenVon(n)))
  {
    hide Probe, F.Rechne;
    RechneIstProbe(w, n, a, Ehrlich(w, n, a));
  }

  /** In every run the next block of a shard starts from the root its state has. */
  lemma {:induction false} VorschlagSchliesstAn(w: Welt, s: nat, plan: seq<Aktion>, i: nat, e: Eingaben)
    requires Ablauf(w, Start(s), plan).Some? && i < s
    ensures var n := Ablauf(w, Start(s), plan).wert;
      Vorschlag(n, i, e, map[]).vor == S.Wurzel(n.zustaende[i].baum)
  {
    hide Probe, Moeglich, Tritt, S.Wurzel;
    if plan != [] {
      var k := |plan| - 1;
      VorschlagSchliesstAn(w, s, plan[..k], i, e);
      SchrittSchliesstAn(w, Ablauf(w, Start(s), plan[..k]).wert, plan[k], i, e);
    }
  }

  lemma SchrittSchliesstAn(w: Welt, n: Netz, a: Aktion, i: nat, e: Eingaben)
    requires |n.zustaende| == |n.letzter| && i < |n.zustaende| && Moeglich(w, n, a)
    requires Vorschlag(n, i, e, map[]).vor == S.Wurzel(n.zustaende[i].baum)
    ensures var n' := Tritt(w, n, a); Vorschlag(n', i, e, map[]).vor == S.Wurzel(n'.zustaende[i].baum)
  {
    hide Probe, S.Wurzel;
  }

  /** Judging a block of a run: whoever proves all that the step read finds it wrong exactly if it
      differs from what the step did, whatever frame the block itself carries. */
  lemma BlockImLaufEntschieden(w: Welt, U: iset<Urbild>, s: nat, plan: seq<Aktion>, a: Aktion, fb: Beweisstueck)
    requires Sicher(w, U) && Ablauf(w, Start(s), plan).Some? && EingabenBenannt(U, plan)
    requires a.Rechne? && Moeglich(w, Ablauf(w, Start(s), plan).wert, a)
    requires var n := Ablauf(w, Start(s), plan).wert;
      GleicherVorschlag(n, a, fb.block) && AllesBenannt(w, U, n.zustaende[a.bereich], fb.vor)
    requires !V.OhneBelege(fb.vor)
    ensures var n := Ablauf(w, Start(s), plan).wert;
      Pruefe(w, fb, Rahmen(|n.zustaende|, n.sammel.geKumuliert, n.sammel.grenze)) ==
        if && fb.vor.wurzel == fb.block.vor && Wahr(w, n.zustaende[a.bereich], fb.vor)
           && Genuegt(fb.vor, Probe(w, n, a.bereich, a.eingaben).lauf)
        then Gueltig(Abweichend(w, n, a, fb.block)) else Ungueltig
  {
    hide Sicher, Ablauf, EingabenBenannt, AllesBenannt, Pruefe, Wahr, Genuegt, F.Rechne, Probe;
    var n := Ablauf(w, Start(s), plan).wert;
    VorschlagSchliesstAn(w, s, plan, a.bereich, a.eingaben);
    UrteilUeberall(w, U, s, plan, a.bereich, fb, RahmenVon(n));
    RechneIstProbe(w, n, a, fb.block);
  }

  /** And there always is a proof that does so: a block that differs is refuted, one that does not is upheld. */
  lemma AbweichungWiderlegbar(w: Welt, U: iset<Urbild>, s: nat, plan: seq<Aktion>, a: Aktion, b: BereichsBlock,
                              addr: string)
    requires Sicher(w, U) && Ablauf(w, Start(s), plan).Some? && EingabenBenannt(U, plan)
    requires a.Rechne? && Moeglich(w, Ablauf(w, Start(s), plan).wert, a)
    requires GleicherVorschlag(Ablauf(w, Start(s), plan).wert, a, b)
    requires E.PlanBenannt(Plan(b.eingaben), U) && KontoSchluesselU(addr) in U
    ensures var n := Ablauf(w, Start(s), plan).wert;
      var r := Rahmen(|n.zustaende|, n.sammel.geKumuliert, n.sammel.grenze);
      Pruefe(w, V.VollerBeweis(w, n.zustaende[a.bereich], b, r, addr), r) == Gueltig(Abweichend(w, n, a, b))
  {
    hide Sicher, Ablauf, EingabenBenannt, Pruefe, V.VollerBeweis, F.Rechne, Probe, Plan;
    var n := Ablauf(w, Start(s), plan).wert;
    VorschlagSchliesstAn(w, s, plan, a.bereich, a.eingaben);
    EntscheidbarUeberall(w, U, s, plan, a.bereich, b, RahmenVon(n), addr);
    RechneIstProbe(w, n, a, b);
  }
}
