/**
 The committee lottery: a shuffle anyone can repeat, disjoint committees cut from it,
 and checkers from outside.
 */
module Losung {
  import opened Typen
  import opened Sortierung
  import opened Quorum
  import B = Bereich
  import Sammel

  // ---- draws ----------------------------------------------------------------------------

  /** Bits as a number, most significant first. */
  function Zahl(bits: seq<bool>): nat {
    if bits == [] then 0 else 2 * Zahl(bits[..|bits| - 1]) + (if bits[|bits| - 1] then 1 else 0)
  }

  /** A 64-bit counter after n steps. */
  function Zaehler(n: nat): UInt64 { n % ZWEI64 }

  function Weiter(n: UInt64): UInt64 { (n + 1) % ZWEI64 }

  /** Draw number n from a seed, below `bis`: the first eight bytes of a hash, reduced. */
  function Zug(w: Welt, seed: Hash, n: nat, bis: nat): (j: nat)
    requires bis > 0
    ensures j < bis
  {
    var h := w.sha(ZugU(seed, Zaehler(n)));
    Zahl(if TIEFE < 64 then h else h[..64]) % bis
  }

  /** z[i] is the draw that fills place i, from the last place down. */
  function Zuege(w: Welt, seed: Hash, m: nat): (z: seq<nat>)
    ensures |z| == m && Zulaessig(z)
    ensures forall i :: 0 <= i < m ==> z[i] == Zug(w, seed, m - 1 - i, i + 1)
  {
    var z := seq<nat>(m, i requires 0 <= i < m => Zug(w, seed, m - 1 - i, i + 1));
    assert forall i :: 0 <= i < m ==> z[i] == Zug(w, seed, m - 1 - i, i + 1);
    z
  }

  predicate Zulaessig(z: seq<nat>) { forall i :: 0 <= i < |z| ==> z[i] <= i }

  function Tausche(s: seq<string>, i: nat, j: nat): (t: seq<string>)
    requires i < |s| && j < |s|
    ensures |t| == |s|
  {
    s[i := s[j]][j := s[i]]
  }

  /** The order that the draws z make of s. */
  function Gezogen(s: seq<string>, z: seq<nat>): (p: seq<string>)
    requires |z| == |s| && Zulaessig(z)
    ensures |p| == |s|
    decreases |s|
  {
    if |s| <= 1 then s
    else
      var i := |s| - 1;
      var t := Tausche(s, i, z[i]);
      Gezogen(t[..i], z[..i]) + [t[i]]
  }

  function Mische(w: Welt, validatoren: seq<string>, seed: Hash): seq<string> {
    SortiereRichtig(validatoren);
    assert |Sortiere(validatoren)| == |multiset(Sortiere(validatoren))| == |validatoren|;
    Gezogen(Sortiere(validatoren), Zuege(w, seed, |validatoren|))
  }

  lemma TauscheBehaelt(s: seq<string>, i: nat, j: nat)
    requires i < |s| && j < |s|
    ensures multiset(Tausche(s, i, j)) == multiset(s)
  {
  }

  lemma ZulaessigBis(z: seq<nat>, k: nat)
    requires Zulaessig(z) && k <= |z|
    ensures Zulaessig(z[..k]) && forall i :: 0 <= i < k ==> z[i] <= i
  {
  }

  lemma GezogenEinzeln(s: seq<string>, z: seq<nat>)
    requires |s| == |z| <= 1 && Zulaessig(z)
    ensures Gezogen(s, z) == s
  {
  }

  /** The last place is filled first. */
  lemma GezogenEins(s: seq<string>, z: seq<nat>)
    requires |z| == |s| > 1 && Zulaessig(z)
    ensures var i := |s| - 1; var t := Tausche(s, i, z[i]);
      Zulaessig(z[..i]) && Gezogen(s, z) == Gezogen(t[..i], z[..i]) + [t[i]]
  {
    hide Tausche;
  }

  /** A shuffle loses and invents nobody. */
  lemma {:induction false} GezogenPermutiert(s: seq<string>, z: seq<nat>)
    requires |z| == |s| && Zulaessig(z)
    ensures multiset(Gezogen(s, z)) == multiset(s)
    decreases |s|
  {
    hide Tausche, Gezogen;
    if |s| <= 1 { GezogenEinzeln(s, z); }
    if |s| > 1 {
      var i := |s| - 1;
      var t := Tausche(s, i, z[i]);
      TauscheBehaelt(s, i, z[i]);
      GezogenEins(s, z);
      GezogenPermutiert(t[..i], z[..i]);
      assert t == t[..i] + [t[i]];
      assert multiset(Gezogen(s, z)) == multiset(Gezogen(t[..i], z[..i])) + multiset{t[i]};
    }
  }

  lemma {:induction false} VerschiedenIstMultiset(s: seq<string>)
    ensures Verschieden(s) <==> forall a :: multiset(s)[a] <= 1
  {
    if s != [] {
      var n := |s| - 1;
      VerschiedenIstMultiset(s[..n]);
      assert s == s[..n] + [s[n]];
      if Verschieden(s) {
        assert s[n] !in s[..n];
      } else if i, j :| 0 <= i < j < |s| && s[i] == s[j] {
        if j < n {
          assert s[..n][i] == s[..n][j];
          var a :| multiset(s[..n])[a] > 1;
          assert multiset(s)[a] > 1;
        } else {
          assert s[..n][i] == s[n];
          assert s[n] in multiset(s[..n]);
          assert multiset(s)[s[n]] > 1;
        }
      }
    }
  }

  lemma Umgeordnet(s: seq<string>, t: seq<string>)
    requires multiset(s) == multiset(t)
    ensures |s| == |t| && (Verschieden(s) ==> Verschieden(t)) && Menge(s) == Menge(t)
  {
    hide Verschieden;
    VerschiedenIstMultiset(s);
    VerschiedenIstMultiset(t);
    assert |s| == |multiset(s)| == |multiset(t)| == |t|;
    forall a ensures a in s <==> a in t {
      assert a in s <==> a in multiset(s);
      assert a in t <==> a in multiset(t);
    }
  }

  /** Different draws make different orders. */
  lemma {:induction false} ZuegeEindeutig(s: seq<string>, z: seq<nat>, z': seq<nat>)
    requires Verschieden(s) && |z| == |z'| == |s| && Zulaessig(z) && Zulaessig(z') && Gezogen(s, z) == Gezogen(s, z')
    ensures z == z'
    decreases |s|
  {
    if |s| > 1 {
      var i := |s| - 1;
      var t, t' := Tausche(s, i, z[i]), Tausche(s, i, z'[i]);
      var p, p' := Gezogen(t[..i], z[..i]), Gezogen(t'[..i], z'[..i]);
      assert (p + [t[i]])[i] == (p' + [t'[i]])[i];
      assert z[i] == z'[i];
      assert p == (p + [t[i]])[..i] == (p' + [t'[i]])[..i] == p';
      ZuegeEindeutig(t[..i], z[..i], z'[..i]);
      assert z == z[..i] + [z[i]] && z' == z'[..i] + [z'[i]];
    }
  }

  /** Every order is made by some draws. */
  lemma {:induction false} JedeReihenfolge(s: seq<string>, p: seq<string>) returns (z: seq<nat>)
    requires multiset(s) == multiset(p)
    ensures |z| == |s| && Zulaessig(z) && Gezogen(s, z) == p
    decreases |s|
  {
    assert |s| == |multiset(s)| == |multiset(p)| == |p|;
    if |s| == 0 {
      z := [];
    } else if |s| == 1 {
      z := [0];
      assert s[0] in multiset(p);
    } else {
      var j := Holen(s, p);
      var i := |s| - 1;
      var t := Tausche(s, i, j);
      var y := JedeReihenfolge(t[..i], p[..i]);
      z := y + [j];
      assert z[..i] == y;
      assert p == p[..i] + [p[i]];
    }
  }

  /** Some element of s can be swapped to the end to agree with p there. */
  lemma Holen(s: seq<string>, p: seq<string>) returns (j: nat)
    requires multiset(s) == multiset(p) && |s| == |p| > 0
    ensures j < |s| && Tausche(s, |s| - 1, j)[|s| - 1] == p[|s| - 1]
    ensures multiset(Tausche(s, |s| - 1, j)[..|s| - 1]) == multiset(p[..|s| - 1])
  {
    hide Tausche;
    var i := |s| - 1;
    assert p[i] in multiset(s);
    j :| 0 <= j < |s| && s[j] == p[i];
    TauscheBehaelt(s, i, j);
    TauscheHolt(s, i, j);
    OhneLetztes(Tausche(s, i, j), p);
  }

  lemma TauscheHolt(s: seq<string>, i: nat, j: nat)
    requires i < |s| && j < |s|
    ensures |Tausche(s, i, j)| == |s| && Tausche(s, i, j)[i] == s[j]
  {
  }

  lemma OhneLetztes(t: seq<string>, p: seq<string>)
    requires |t| == |p| > 0 && multiset(t) == multiset(p) && t[|t| - 1] == p[|t| - 1]
    ensures multiset(t[..|t| - 1]) == multiset(p[..|t| - 1])
  {
    var i := |t| - 1;
    assert t == t[..i] + [t[i]] && p == p[..i] + [p[i]];
    assert multiset(t[..i]) == multiset(t) - multiset{t[i]};
    assert multiset(p[..i]) == multiset(p) - multiset{p[i]};
  }

  /** The lottery does not depend on the order of the list. */
  lemma MischeRichtig(w: Welt, v: seq<string>, v': seq<string>, seed: Hash)
    requires multiset(v) == multiset(v')
    ensures multiset(Mische(w, v, seed)) == multiset(v) && Mische(w, v', seed) == Mische(w, v, seed)
  {
    hide Gezogen, Zuege;
    SortiereRichtig(v);
    SortiereVergisstReihenfolge(v, v');
    assert |v| == |multiset(v)| == |multiset(v')| == |v'|;
    GezogenPermutiert(Sortiere(v), Zuege(w, seed, |v|));
  }

  // ---- committees -------------------------------------------------------------------------

  function Ausschuesse(w: Welt, validatoren: seq<string>, s: nat, m: nat, zufall: Hash): Option<seq<seq<string>>> {
    if |validatoren| < s * m then None
    else Some(Geteilt(Mische(w, validatoren, w.sha(AusschussU(zufall))), s, m))
  }

  /** The first s pieces of length m, each sorted; what v is too short for is left out. */
  function Geteilt(v: seq<string>, s: nat, m: nat): (r: seq<seq<string>>)
    ensures |r| == s
  {
    if s == 0 then []
    else if |v| < m then seq(s, _ => [])
    else [Sortiere(v[..m])] + Geteilt(v[m..], s - 1, m)
  }

  /** s committees of m members each, nobody in two places. */
  predicate Aufgeteilt(aus: seq<seq<string>>, s: nat, m: nat, v: seq<string>) {
    && |aus| == s
    && (forall i :: 0 <= i < s ==> |aus[i]| == m && Verschieden(aus[i]) && Menge(aus[i]) <= Menge(v))
    && forall i, j :: 0 <= i < j < s ==> Menge(aus[i]) !! Menge(aus[j])
  }

  lemma {:induction false} GeteiltRichtig(v: seq<string>, s: nat, m: nat)
    requires Verschieden(v) && |v| >= s * m
    ensures Aufgeteilt(Geteilt(v, s, m), s, m, v)
    decreases s
  {
    if s > 0 {
      Produkt(s - 1, m);
      assert s * m == (s - 1) * m + m;
      var x, y := v[..m], v[m..];
      assert v == x + y;
      Getrennt(x, y);
      MengeVonSumme(x, y);
      SortiereRichtig(x);
      Umgeordnet(x, Sortiere(x));
      GeteiltRichtig(y, s - 1, m);
      var r, rest := Geteilt(v, s, m), Geteilt(y, s - 1, m);
      assert forall i :: 0 < i < s ==> r[i] == rest[i - 1];
    }
  }

  /** Drawing fails exactly if there are too few; otherwise nobody sits in two committees. */
  lemma AusschuesseRichtig(w: Welt, v: seq<string>, v': seq<string>, s: nat, m: nat, zufall: Hash)
    requires Verschieden(v) && multiset(v) == multiset(v')
    ensures Ausschuesse(w, v, s, m, zufall).Some? <==> |v| >= s * m
    ensures Ausschuesse(w, v, s, m, zufall) == Ausschuesse(w, v', s, m, zufall)
    ensures |v| >= s * m ==> Aufgeteilt(Ausschuesse(w, v, s, m, zufall).wert, s, m, v)
  {
    hide Mische, Aufgeteilt, Geteilt;
    var seed := w.sha(AusschussU(zufall));
    MischeRichtig(w, v, v', seed);
    Umgeordnet(v, v');
    Umgeordnet(v, Mische(w, v, seed));
    if |v| >= s * m {
      GeteiltRichtig(Mische(w, v, seed), s, m);
      assert Aufgeteilt(Ausschuesse(w, v, s, m, zufall).wert, s, m, Mische(w, v, seed));
      MengeGleich(Ausschuesse(w, v, s, m, zufall).wert, s, m, Mische(w, v, seed), v);
    }
  }

  lemma MengeGleich(aus: seq<seq<string>>, s: nat, m: nat, v: seq<string>, v': seq<string>)
    requires Aufgeteilt(aus, s, m, v) && Menge(v) == Menge(v')
    ensures Aufgeteilt(aus, s, m, v')
  {
  }

  const MINDEST_VALIDATOREN := 32

  predicate Aktiv(validatoren: nat, s: nat, m: nat) {
    validatoren >= MINDEST_VALIDATOREN && s >= 1 && m >= 1 && validatoren >= s * m
  }

  /** Whatever epoch block the committees are drawn from: a committee of which fewer than a third
      sign twice confirms at most one head per place. */
  lemma GelosterAusschussEinig(w: Welt, umlauf: iset<BereichsBlock>, v: seq<string>, s: nat, m: nat, sb: Sammelblock,
                               i: nat, b: BereichsBlock, b': BereichsBlock)
    requires Verschieden(v) && Aktiv(|v|, s, m) && i < s
    requires b in umlauf && b' in umlauf && GleicheStelle(b, b')
    ensures Ausschuesse(w, v, s, m, Sammel.Zufall(w, sb)).Some?
    ensures var a := Ausschuesse(w, v, s, m, Sammel.Zufall(w, sb)).wert[i];
      3 * |set x | x in a && !SigniertEinmal(w, umlauf, x)| < m && B.BestaetigtVon(w, b, a) && B.BestaetigtVon(w, b', a)
      ==> B.Kopf(w, b) == B.Kopf(w, b')
  {
    hide SigniertEinmal, B.BestaetigtVon, B.Kopf, Ausschuesse, Verschieden, Menge;
    AusschuesseRichtig(w, v, v, s, m, Sammel.Zufall(w, sb));
    var a := Ausschuesse(w, v, s, m, Sammel.Zufall(w, sb)).wert[i];
    var untreu := set x | x in a && !SigniertEinmal(w, umlauf, x);
    if 3 * |untreu| < m && B.BestaetigtVon(w, b, a) && B.BestaetigtVon(w, b', a) {
      EinigUeberKopf(w, umlauf, b, b', a);
    }
  }

  // ---- checkers from outside ----------------------------------------------------------------

  function Ohne(v: seq<string>, weg: seq<string>): seq<string> {
    if v == [] then []
    else
      var k := |v| - 1;
      Ohne(v[..k], weg) + (if v[k] in weg then [] else [v[k]])
  }

  lemma {:induction false} OhneGenau(v: seq<string>, weg: seq<string>)
    ensures Menge(Ohne(v, weg)) == Menge(v) - Menge(weg) && (Verschieden(v) ==> Verschieden(Ohne(v, weg)))
  {
    if v != [] {
      var k := |v| - 1;
      OhneGenau(v[..k], weg);
      var vorne := Ohne(v[..k], weg);
      assert v == v[..k] + [v[k]];
      assert Ohne(v, weg) == if v[k] in weg then vorne else vorne + [v[k]];
      if v[k] !in weg {
        MengeVonSumme(vorne, [v[k]]);
        if Verschieden(v) { assert v[k] !in v[..k] && v[k] !in Menge(vorne); }
      }
      MengeVonSumme(v[..k], [v[k]]);
    }
  }

  function Pruefausschuss(w: Welt, validatoren: seq<string>, eigener: seq<string>, m: nat, zufall: Hash,
                          bereich: int): seq<string> {
    var v := Mische(w, Ohne(validatoren, eigener), w.sha(PruefausschussU(zufall, bereich)));
    Sortiere(if |v| > m then v[..m] else v)
  }

  /** Never a member of the committee it checks, and m members unless too few others exist. */
  lemma PruefausschussRichtig(w: Welt, v: seq<string>, eigener: seq<string>, m: nat, zufall: Hash, bereich: int)
    requires Verschieden(v)
    ensures var r := Pruefausschuss(w, v, eigener, m, zufall, bereich); var rest := |Menge(v) - Menge(eigener)|;
      && Verschieden(r) && Sortiert(r) && Menge(r) <= Menge(v) - Menge(eigener)
      && |r| == if rest < m then rest else m
  {
    hide Mische;
    var rest, seed := Ohne(v, eigener), w.sha(PruefausschussU(zufall, bereich));
    var g := Mische(w, rest, seed);
    OhneGenau(v, eigener);
    MengeVon(rest);
    MischeRichtig(w, rest, rest, seed);
    Umgeordnet(rest, g);
    var kurz := if |g| > m then g[..m] else g;
    if |g| > m {
      assert g == g[..m] + g[m..];
      Getrennt(g[..m], g[m..]);
      MengeVonSumme(g[..m], g[m..]);
    }
    SortiereRichtig(kurz);
    Umgeordnet(kurz, Sortiere(kurz));
  }

  // ---- independent lotteries ------------------------------------------------------------------

  /** The lotteries of an epoch: one for the committees, one for the checkers of each shard. */
  datatype Lotterie = Ausschusslos | Pruefausschusslos(bereich: int)

  function Seedurbild(zufall: Hash, l: Lotterie): Urbild {
    match l case Ausschusslos => AusschussU(zufall) case Pruefausschusslos(i) => PruefausschussU(zufall, i)
  }

  /** Up to 2^64 draws each, no two draws of an epoch's lotteries hash the same input: nothing drawn
      for one place or one lottery is drawn again for another. */
  lemma ZuegeGetrennt(w: Welt, U: iset<Urbild>, zufall: Hash, l: Lotterie, l': Lotterie, n: nat, n': nat)
    requires Sicher(w, U) && Seedurbild(zufall, l) in U && Seedurbild(zufall, l') in U
    requires n < ZWEI64 && n' < ZWEI64
    ensures ZugU(w.sha(Seedurbild(zufall, l)), Zaehler(n)) == ZugU(w.sha(Seedurbild(zufall, l')), Zaehler(n'))
      <==> l == l' && n == n'
  {
    if ZugU(w.sha(Seedurbild(zufall, l)), Zaehler(n)) == ZugU(w.sha(Seedurbild(zufall, l')), Zaehler(n')) {
      assert Zaehler(n) == n && Zaehler(n') == n';
      assert Seedurbild(zufall, l) == Seedurbild(zufall, l');
    }
  }

  // ---- the program -------------------------------------------------------------------------

  /** A source of draws; the counter it keeps stands for the number of draws made. */
  class Zufallsquelle {
    const seed: Hash
    var n: UInt64
    ghost var gezogen: nat

    ghost predicate Valid()
      reads this
    {
      n == Zaehler(gezogen)
    }

    constructor (seed: Hash)
      ensures Valid() && this.seed == seed && gezogen == 0
    {
      this.seed, n, gezogen := seed, 0, 0;
    }

    /** The k-th call, counted from 0, yields draw number k of the seed. */
    method Naechste(w: Welt, bis: nat) returns (j: nat)
      requires Valid() && bis > 0
      modifies this
      ensures Valid() && gezogen == old(gezogen) + 1
      ensures j < bis && j == Zug(w, seed, old(gezogen), bis)
    {
      hide Zahl;
      var h := w.sha(ZugU(seed, n));
      j := Zahl(if TIEFE < 64 then h else h[..64]) % bis;
      n := Weiter(n);
      gezogen := gezogen + 1;
    }
  }

  /** Swaps places i and j of an array whose last place in play is i. */
  method TauscheStellen(v: array<string>, i: nat, j: nat)
    requires j <= i < v.Length
    modifies v
    ensures v[..i] == Tausche(old(v[..i + 1]), i, j)[..i]
    ensures v[i..] == [Tausche(old(v[..i + 1]), i, j)[i]] + old(v[i + 1..])
  {
    hide Tausche;
    ghost var vorher, hinten := v[..i + 1], v[i + 1..];
    v[i], v[j] := v[j], v[i];
    GetauschtIst(vorher, i, j, v[..i + 1]);
    assert v[i + 1..] == hinten && v[i..] == [v[i]] + hinten;
    assert v[..i] == v[..i + 1][..i];
  }

  /** Shuffles in place, from the last place down. */
  method Durchmische(w: Welt, v: array<string>, seed: Hash)
    modifies v
    ensures v[..] == Gezogen(old(v[..]), Zuege(w, seed, v.Length))
  {
    hide Zug, Gezogen, Tausche, Zuege, Zulaessig, Zaehler, Weiter;
    var m := v.Length;
    var quelle := new Zufallsquelle(seed);
    ghost var z := Zuege(w, seed, m);
    ghost var soll := Gezogen(v[..], z);
    var i := m - 1;
    assert v[..i + 1] == v[..] && z[..i + 1] == z && v[i + 1..] == [];
    assert soll + [] == soll;
    while i > 0
      invariant -1 <= i < m && (i < 0 ==> m == 0)
      invariant quelle.Valid() && quelle.seed == seed && quelle.gezogen == m - 1 - i
      invariant Zulaessig(z[..i + 1]) && Gezogen(v[..i + 1], z[..i + 1]) + v[i + 1..] == soll
    {
      ghost var vorher, hinten := v[..i + 1], v[i + 1..];
      ZugGezogen(w, seed, m, i);
      var j := quelle.Naechste(w, i + 1);
      TauscheStellen(v, i, j);
      EinTausch(vorher, z, i, hinten);
      i := i - 1;
    }
    GezogenEinzeln(v[..i + 1], z[..i + 1]);
    assert v[..] == v[..i + 1] + v[i + 1..];
  }

  /** The draws for m places, as the source yields them. */
  lemma ZugGezogen(w: Welt, seed: Hash, m: nat, i: nat)
    requires i < m
    ensures Zulaessig(Zuege(w, seed, m)) && Zuege(w, seed, m)[i] == Zug(w, seed, m - 1 - i, i + 1)
  {
    hide Zulaessig, Zahl;
  }

  method MischeSchritte(w: Welt, validatoren: seq<string>, seed: Hash) returns (v: array<string>)
    ensures fresh(v) && v[..] == Mische(w, validatoren, seed)
  {
    hide Gezogen, Zuege;
    var sortiert := Sortiere(validatoren);
    SortiereRichtig(validatoren);
    assert |sortiert| == |multiset(sortiert)| == |validatoren|;
    v := new string[|sortiert|](i requires 0 <= i < |sortiert| => sortiert[i]);
    assert v[..] == sortiert;
    Durchmische(w, v, seed);
  }

  lemma GetauschtIst(s: seq<string>, i: nat, j: nat, t: seq<string>)
    requires i < |s| == |t| && j < |s| && t[i] == s[j] && t[j] == s[i]
    requires forall k :: 0 <= k < |s| && k != i && k != j ==> t[k] == s[k]
    ensures t == Tausche(s, i, j)
  {
  }

  lemma EinTausch(s: seq<string>, z: seq<nat>, i: nat, hinten: seq<string>)
    requires |s| == i + 1 > 1 && |z| > i && Zulaessig(z)
    ensures Zulaessig(z[..i + 1]) && Zulaessig(z[..i]) && z[i] <= i
    ensures var t := Tausche(s, i, z[i]);
      Gezogen(s, z[..i + 1]) + hinten == Gezogen(t[..i], z[..i]) + ([t[i]] + hinten)
  {
    hide Gezogen, Tausche, Zulaessig;
    ZulaessigBis(z, i + 1);
    ZulaessigBis(z, i);
    GezogenEins(s, z[..i + 1]);
    assert z[..i + 1][..i] == z[..i];
    var t := Tausche(s, i, z[i]);
    Klammern(Gezogen(t[..i], z[..i]), [t[i]], hinten);
  }

  method AusschuesseSchritte(w: Welt, validatoren: seq<string>, s: nat, m: nat, zufall: Hash)
    returns (r: Option<seq<seq<string>>>)
    ensures r == Ausschuesse(w, validatoren, s, m, zufall)
  {
    hide Mische, Geteilt, Sortiere;
    if |validatoren| < s * m { return None; }
    var v := MischeSchritte(w, validatoren, w.sha(AusschussU(zufall)));
    MischeRichtig(w, validatoren, validatoren, w.sha(AusschussU(zufall)));
    Umgeordnet(validatoren, v[..]);
    ghost var gemischt := v[..];
    var aus := [];
    assert gemischt[0 * m..] == gemischt;
    for i := 0 to s
      invariant 0 <= i * m <= s * m <= v.Length && v[..] == gemischt
      invariant aus + Geteilt(gemischt[i * m..], s - i, m) == Geteilt(gemischt, s, m)
    {
      Abgetrennt(gemischt, i, s, m);
      var teil := v[i * m..(i + 1) * m];
      assert teil == gemischt[i * m..(i + 1) * m];
      Klammern(aus, [Sortiere(teil)], Geteilt(gemischt[(i + 1) * m..], s - i - 1, m));
      aus := aus + [Sortiere(teil)];
    }
    NichtsGeteilt(gemischt[s * m..], m);
    assert aus + [] == aus;
    r := Some(aus);
  }

  lemma NichtsGeteilt(v: seq<string>, m: nat)
    ensures Geteilt(v, 0, m) == []
  {
  }

  /** Piece i of a list and the pieces after it. */
  lemma Abgetrennt(v: seq<string>, i: nat, s: nat, m: nat)
    requires i < s && s * m <= |v|
    ensures 0 <= i * m <= (i + 1) * m <= s * m
    ensures Geteilt(v[i * m..], s - i, m) == [Sortiere(v[i * m..(i + 1) * m])] + Geteilt(v[(i + 1) * m..], s - i - 1, m)
  {
    Produkt(i, m);
    Produkt(s - i - 1, m);
    var a, b := i * m, (i + 1) * m;
    assert b == a + m && (s - i - 1) * m == s * m - b;
    assert v[a..][..m] == v[a..b] && v[a..][m..] == v[b..];
  }

  method PruefausschussSchritte(w: Welt, validatoren: seq<string>, eigener: seq<string>, m: nat, zufall: Hash,
                                bereich: int)
    returns (r: seq<string>)
    ensures r == Pruefausschuss(w, validatoren, eigener, m, zufall, bereich)
  {
    hide Mische;
    var aus: set<string> := {};
    for i := 0 to |eigener|
      invariant aus == Menge(eigener[..i])
    {
      assert eigener[..i + 1] == eigener[..i] + [eigener[i]];
      aus := aus + {eigener[i]};
    }
    assert eigener[..|eigener|] == eigener;
    var rest := [];
    for i := 0 to |validatoren|
      invariant rest == Ohne(validatoren[..i], eigener)
    {
      assert validatoren[..i + 1][..i] == validatoren[..i];
      if validatoren[i] !in aus { rest := rest + [validatoren[i]]; }
    }
    assert validatoren[..|validatoren|] == validatoren;
    var v := MischeSchritte(w, rest, w.sha(PruefausschussU(zufall, bereich)));
    r := Sortiere(if v.Length > m then v[..m] else v[..]);
    if v.Length > m { assert v[..][..m] == v[..m]; }
  }
}
