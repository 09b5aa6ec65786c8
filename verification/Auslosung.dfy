/**
 Who is drawn: place by place, from the sorted list and the draws alone, and with it who sits in
 which committee and who checks it.
 */
module Auslosung {
  import opened Typen
  import opened Sortierung
  import opened Quorum
  import opened Losung
  import Sammel

  // ---- one draw ---------------------------------------------------------------------------

  /** What a one with n zeros behind it stands for. */
  function Stellenwert(n: nat): nat { Zahl([true] + Nullen(n)) }

  lemma ZahlStellen(n: nat)
    ensures Stellenwert(n + 1) == 2 * Stellenwert(n) && Stellenwert(0) == 1
  {
    var bits := [true] + Nullen(n + 1);
    assert bits[..n + 1] == [true] + Nullen(n);
    assert [true] + Nullen(0) == [true] && [true][..0] == [];
  }

  lemma ZahlAnhang(a: seq<bool>, x: bool)
    ensures Zahl(a + [x]) == 2 * Zahl(a) + if x then 1 else 0
    ensures Zahl([]) == 0
  {
    assert (a + [x])[..|a|] == a;
  }

  /** Bits read most significant first: what stands in front counts as often as a one with as many zeros
      behind it as bits follow. */
  lemma {:induction false} ZahlVerkettet(a: seq<bool>, b: seq<bool>)
    ensures Zahl(a + b) == Zahl(a) * Stellenwert(|b|) + Zahl(b)
  {
    hide Zahl, Stellenwert;
    if b == [] {
      assert a + b == a;
      ZahlStellen(0);
      ZahlAnhang([], true);
    } else {
      var n := |b| - 1;
      var vorne, x := b[..n], b[n];
      ZahlVerkettet(a, vorne);
      ZahlStellen(n);
      assert b == vorne + [x] && a + b == (a + vorne) + [x];
      ZahlAnhang(vorne, x);
      ZahlAnhang(a + vorne, x);
      Doppelt(Zahl(a), Stellenwert(n));
    }
  }

  lemma Doppelt(x: nat, y: nat)
    ensures 2 * (x * y) == x * (2 * y)
  {
  }

  // ---- where everybody comes from ------------------------------------------------------------

  /** The place in the sorted list of whoever stands at place p once the places from i on are filled. */
  function Quelle(z: seq<nat>, i: nat, p: nat): nat
    decreases |z| - i
  {
    if i >= |z| then p else Quelle(z, i + 1, if p == z[i] then i else p)
  }

  /** The place in the sorted list of whoever is drawn for place k. */
  function Herkunft(z: seq<nat>, k: nat): nat
    requires k < |z|
  {
    Quelle(z, k + 1, z[k])
  }

  lemma {:induction false} QuelleImBild(z: seq<nat>, i: nat, p: nat)
    requires p < i <= |z|
    ensures Quelle(z, i, p) < |z|
    decreases |z| - i
  {
    if i < |z| { QuelleImBild(z, i + 1, if p == z[i] then i else p); }
  }

  /** Leaving out the last place, whose swap t has made. */
  lemma {:induction false} QuelleVorne(s: seq<string>, z: seq<nat>, i: nat, p: nat)
    requires |z| == |s| > 1 && Zulaessig(z) && p < i < |z|
    ensures var n := |z| - 1;
      && Quelle(z[..n], i, p) < n && Quelle(z, i, p) < |z|
      && Tausche(s, n, z[n])[Quelle(z[..n], i, p)] == s[Quelle(z, i, p)]
    decreases |z| - i
  {
    var n := |z| - 1;
    QuelleImBild(z, i, p);
    QuelleImBild(z[..n], i, p);
    if i < n {
      var p' := if p == z[i] then i else p;
      QuelleVorne(s, z, i + 1, p');
      assert z[..n][i] == z[i];
    } else {
      assert Quelle(z, n, p) == Quelle(z, n + 1, if p == z[n] then n else p);
    }
  }

  /** The shuffle puts at place k whoever the draws say. */
  lemma {:induction false} GezogenAn(s: seq<string>, z: seq<nat>, k: nat)
    requires |z| == |s| && Zulaessig(z) && k < |s|
    ensures Herkunft(z, k) < |s| && Gezogen(s, z)[k] == s[Herkunft(z, k)]
    decreases |s|
  {
    hide Gezogen, Tausche, Quelle;
    var n := |s| - 1;
    QuelleImBild(z, k + 1, z[k]);
    if n == 0 {
      GezogenEinzeln(s, z);
    } else {
      var t := Tausche(s, n, z[n]);
      GezogenEins(s, z);
      if k < n {
        GezogenAn(t[..n], z[..n], k);
        QuelleVorne(s, z, k + 1, z[k]);
      } else {
        QuelleEnde(z);
        TauscheHolt(s, n, z[n]);
      }
    }
  }

  lemma QuelleEnde(z: seq<nat>)
    requires z != []
    ensures Herkunft(z, |z| - 1) == z[|z| - 1]
  {
  }

  /** Nobody is drawn for two places. */
  lemma {:induction false} HerkunftEindeutig(z: seq<nat>, i: nat, p: nat, p': nat)
    requires Zulaessig(z) && p < i <= |z| && p' < i && Quelle(z, i, p) == Quelle(z, i, p')
    ensures p == p'
    decreases |z| - i
  {
    if i < |z| { HerkunftEindeutig(z, i + 1, if p == z[i] then i else p, if p' == z[i] then i else p'); }
  }

  // ---- the shuffled list -------------------------------------------------------------------------

  /** The shuffle of a list: at each place whoever the draws of the seed say. */
  lemma MischeAn(w: Welt, v: seq<string>, seed: Hash, k: nat)
    requires k < |v|
    ensures |Sortiere(v)| == |Mische(w, v, seed)| == |v|
    ensures Herkunft(Zuege(w, seed, |v|), k) < |v|
    ensures Mische(w, v, seed)[k] == Sortiere(v)[Herkunft(Zuege(w, seed, |v|), k)]
  {
    hide Gezogen, Zuege, Zulaessig, Herkunft;
    SortiereRichtig(v);
    assert |Sortiere(v)| == |multiset(Sortiere(v))| == |v|;
    GezogenAn(Sortiere(v), Zuege(w, seed, |v|), k);
  }

  /** At the last place stands the first draw: the first eight bytes of the hash of the seed and 0, modulo the
      number of validators. */
  lemma MischeLetzter(w: Welt, v: seq<string>, seed: Hash)
    requires v != []
    ensures |Sortiere(v)| == |Mische(w, v, seed)| == |v|
    ensures var h := w.sha(ZugU(seed, 0)); var zug := Zahl(if TIEFE < 64 then h else h[..64]) % |v|;
      Mische(w, v, seed)[|v| - 1] == Sortiere(v)[zug]
  {
    hide Mische, Zahl, Zulaessig, Herkunft, Sortiere;
    MischeAn(w, v, seed, |v| - 1);
    QuelleEnde(Zuege(w, seed, |v|));
    assert Zaehler(0) == 0;
  }

  /** Draw number n, counted from 0, of m validators is the same from both seeds: one of the m - n places
      still open, from the first eight bytes of the hash of seed and counter. */
  predicate GleicherZug(w: Welt, seed: Hash, seed': Hash, m: nat, n: nat)
    requires n < m
  {
    var h, h' := w.sha(ZugU(seed, n % ZWEI64)), w.sha(ZugU(seed', n % ZWEI64));
    Zahl(if TIEFE < 64 then h else h[..64]) % (m - n) == Zahl(if TIEFE < 64 then h' else h'[..64]) % (m - n)
  }

  lemma ZugGleich(w: Welt, seed: Hash, seed': Hash, m: nat, n: nat)
    requires n < m
    ensures Zuege(w, seed, m)[m - 1 - n] == Zuege(w, seed', m)[m - 1 - n] <==> GleicherZug(w, seed, seed', m, n)
    ensures n == m - 1 ==> GleicherZug(w, seed, seed', m, n)
  {
    hide Zahl, Zulaessig;
  }

  lemma ZuegeGleichGenau(w: Welt, seed: Hash, seed': Hash, m: nat)
    ensures Zuege(w, seed, m) == Zuege(w, seed', m)
      <==> forall n: nat :: n + 1 < m ==> GleicherZug(w, seed, seed', m, n)
  {
    hide GleicherZug, Zuege, Zulaessig;
    var z, z' := Zuege(w, seed, m), Zuege(w, seed', m);
    if forall n: nat :: n + 1 < m ==> GleicherZug(w, seed, seed', m, n) {
      forall i | 0 <= i < m ensures z[i] == z'[i] { ZugGleich(w, seed, seed', m, m - 1 - i); }
    }
    if z == z' {
      forall n: nat | n + 1 < m ensures GleicherZug(w, seed, seed', m, n) { ZugGleich(w, seed, seed', m, n); }
    }
  }

  /** Two seeds shuffle distinct validators alike exactly if they draw alike each time. */
  lemma MischeGenau(w: Welt, v: seq<string>, seed: Hash, seed': Hash)
    requires Verschieden(v)
    ensures Mische(w, v, seed) == Mische(w, v, seed')
      <==> forall n: nat :: n + 1 < |v| ==> GleicherZug(w, seed, seed', |v|, n)
  {
    hide Gezogen, GleicherZug, Zuege, Zulaessig;
    SortiereRichtig(v);
    assert |Sortiere(v)| == |multiset(Sortiere(v))| == |v|;
    Umgeordnet(v, Sortiere(v));
    ZuegeGleichGenau(w, seed, seed', |v|);
    if Mische(w, v, seed) == Mische(w, v, seed') {
      ZuegeEindeutig(Sortiere(v), Zuege(w, seed, |v|), Zuege(w, seed', |v|));
    }
  }

  // ---- committees -------------------------------------------------------------------------------------

  /** The places in the sorted list of those drawn for the places from `von` up to `bis`. */
  function Gezogene(z: seq<nat>, von: nat, bis: nat): set<nat>
    requires bis <= |z|
  {
    set k: nat | von <= k < bis :: Herkunft(z, k)
  }

  /** Likewise for piece i of length m. */
  function Stueck(z: seq<nat>, i: nat, m: nat): set<nat> {
    if 0 <= i * m <= (i + 1) * m <= |z| then Gezogene(z, i * m, (i + 1) * m) else {}
  }

  /** Those at the given places of a list. */
  function An(s: seq<string>, stellen: set<nat>): set<string> {
    set j | j in stellen && j < |s| :: s[j]
  }

  lemma {:induction false} GeteiltAn(v: seq<string>, s: nat, m: nat, i: nat)
    requires i < s && s * m <= |v|
    ensures 0 <= i * m <= (i + 1) * m <= |v| && Geteilt(v, s, m)[i] == Sortiere(v[i * m..(i + 1) * m])
    decreases s
  {
    Produkt(s - 1, m);
    assert s * m == (s - 1) * m + m;
    Produkt(i, m);
    assert (i + 1) * m == i * m + m;
    if i > 0 {
      GeteiltAn(v[m..], s - 1, m, i - 1);
      assert i * m == (i - 1) * m + m;
      assert v[m..][(i - 1) * m..i * m] == v[i * m..(i + 1) * m];
    }
  }

  lemma GezogeneSind(s: seq<string>, z: seq<nat>, von: nat, bis: nat)
    requires |z| == |s| && Zulaessig(z) && von <= bis <= |s|
    ensures Menge(Gezogen(s, z)[von..bis]) == An(s, Gezogene(z, von, bis))
  {
    hide Gezogen, Herkunft;
    var g := Gezogen(s, z);
    forall k | 0 <= k < |s| ensures Herkunft(z, k) < |s| && g[k] == s[Herkunft(z, k)] { GezogenAn(s, z, k); }
    forall x | x in An(s, Gezogene(z, von, bis)) ensures x in Menge(g[von..bis]) {
      var j :| j in Gezogene(z, von, bis) && j < |s| && s[j] == x;
      var k: nat :| von <= k < bis && Herkunft(z, k) == j;
      assert g[von..bis][k - von] == x;
    }
    forall x | x in Menge(g[von..bis]) ensures x in An(s, Gezogene(z, von, bis)) {
      var k :| 0 <= k < bis - von && g[von..bis][k] == x;
      assert Herkunft(z, von + k) in Gezogene(z, von, bis);
    }
  }

  /** Committee i of an epoch: sorted, those the draws of the seed "ausschuss" put at its m places. */
  lemma AusschussBesteht(w: Welt, v: seq<string>, s: nat, m: nat, zufall: Hash, i: nat)
    requires |v| >= s * m && i < s
    ensures Ausschuesse(w, v, s, m, zufall).Some? && |Ausschuesse(w, v, s, m, zufall).wert| == s
    ensures var a := Ausschuesse(w, v, s, m, zufall).wert[i];
      && Sortiert(a) && |a| == m
      && Menge(a) == An(Sortiere(v), Stueck(Zuege(w, w.sha(AusschussU(zufall)), |v|), i, m))
  {
    hide Gezogen, Zuege, Gezogene, An;
    var seed := w.sha(AusschussU(zufall));
    SortiereRichtig(v);
    assert |Sortiere(v)| == |multiset(Sortiere(v))| == |v|;
    var g := Mische(w, v, seed);
    GeteiltAn(g, s, m, i);
    var teil := g[i * m..(i + 1) * m];
    SortiereRichtig(teil);
    Umgeordnet(teil, Sortiere(teil));
    assert (i + 1) * m - i * m == m;
    GezogeneSind(Sortiere(v), Zuege(w, seed, |v|), i * m, (i + 1) * m);
  }

  lemma {:induction false} SortiertBleibt(s: seq<string>)
    requires Sortiert(s)
    ensures Sortiere(s) == s
  {
    hide HoechstensGleich;
    if s != [] {
      SortiertBleibt(s[1..]);
      assert s == [s[0]] + s[1..];
    }
  }

  /** A sorted list without repetitions is told by its members. */
  lemma SortiertEindeutig(s: seq<string>, t: seq<string>)
    requires Sortiert(s) && Sortiert(t) && Verschieden(s) && Verschieden(t) && Menge(s) == Menge(t)
    ensures s == t
  {
    hide Sortiert, Sortiere, Verschieden;
    VerschiedenIstMultiset(s);
    VerschiedenIstMultiset(t);
    forall x ensures multiset(s)[x] == multiset(t)[x] {
      assert x in multiset(s) <==> x in Menge(s);
      assert x in multiset(t) <==> x in Menge(t);
    }
    SortiereVergisstReihenfolge(s, t);
    SortiertBleibt(s);
    SortiertBleibt(t);
  }

  lemma StellenEindeutig(s: seq<string>, x: set<nat>, y: set<nat>)
    requires Verschieden(s) && (forall j :: j in x || j in y ==> j < |s|) && An(s, x) == An(s, y)
    ensures x == y
  {
    forall j | j in x || j in y ensures j in x <==> j in y {
      assert s[j] in An(s, x);
      assert s[j] in An(s, y);
    }
  }

  lemma StueckImBild(z: seq<nat>, i: nat, m: nat)
    requires Zulaessig(z)
    ensures forall j :: j in Stueck(z, i, m) ==> j < |z|
  {
    hide Quelle;
    forall k: nat | k < |z| ensures Herkunft(z, k) < |z| { QuelleImBild(z, k + 1, z[k]); }
  }

  /** Two epochs draw the same committee i of distinct validators exactly if their draws lead to the same
      places of the sorted list. */
  lemma AusschussGleichGenau(w: Welt, v: seq<string>, s: nat, m: nat, zufall: Hash, zufall': Hash, i: nat)
    requires Verschieden(v) && |v| >= s * m && i < s
    ensures Ausschuesse(w, v, s, m, zufall).Some? && |Ausschuesse(w, v, s, m, zufall).wert| == s
    ensures Ausschuesse(w, v, s, m, zufall').Some? && |Ausschuesse(w, v, s, m, zufall').wert| == s
    ensures Ausschuesse(w, v, s, m, zufall).wert[i] == Ausschuesse(w, v, s, m, zufall').wert[i]
      <==> Stueck(Zuege(w, w.sha(AusschussU(zufall)), |v|), i, m)
             == Stueck(Zuege(w, w.sha(AusschussU(zufall')), |v|), i, m)
  {
    hide Ausschuesse, Zuege, Stueck, Menge, An, Sortiert, Verschieden;
    var z, z' := Zuege(w, w.sha(AusschussU(zufall)), |v|), Zuege(w, w.sha(AusschussU(zufall')), |v|);
    AusschussBesteht(w, v, s, m, zufall, i);
    AusschussBesteht(w, v, s, m, zufall', i);
    AusschuesseRichtig(w, v, v, s, m, zufall);
    AusschuesseRichtig(w, v, v, s, m, zufall');
    var a, a' := Ausschuesse(w, v, s, m, zufall).wert[i], Ausschuesse(w, v, s, m, zufall').wert[i];
    SortiereRichtig(v);
    assert |Sortiere(v)| == |multiset(Sortiere(v))| == |v|;
    Umgeordnet(v, Sortiere(v));
    if a == a' {
      StueckImBild(z, i, m);
      StueckImBild(z', i, m);
      StellenEindeutig(Sortiere(v), Stueck(z, i, m), Stueck(z', i, m));
    } else if Stueck(z, i, m) == Stueck(z', i, m) {
      SortiertEindeutig(a, a');
      assert false;
    }
  }

  /** The checkers of a shard: sorted, those whom the draws of their own seed put at the first m places
      of the sorted list of everyone outside the committee. */
  lemma PruefausschussBesteht(w: Welt, v: seq<string>, eigener: seq<string>, m: nat, zufall: Hash, bereich: int)
    ensures var r, rest := Pruefausschuss(w, v, eigener, m, zufall, bereich), Ohne(v, eigener);
      var n := if |rest| < m then |rest| else m;
      && Sortiert(r) && |r| == n && Menge(rest) == Menge(v) - Menge(eigener) && |Sortiere(rest)| == |rest|
      && Menge(r) == An(Sortiere(rest), Gezogene(Zuege(w, w.sha(PruefausschussU(zufall, bereich)), |rest|), 0, n))
  {
    hide Gezogen, Zuege, Gezogene, An, Ohne, Sortiert;
    var rest, seed := Ohne(v, eigener), w.sha(PruefausschussU(zufall, bereich));
    OhneGenau(v, eigener);
    SortiereRichtig(rest);
    assert |Sortiere(rest)| == |multiset(Sortiere(rest))| == |rest|;
    var g, n := Mische(w, rest, seed), if |rest| < m then |rest| else m;
    var kurz := if |g| > m then g[..m] else g;
    assert kurz == g[0..n];
    SortiereRichtig(kurz);
    Umgeordnet(kurz, Sortiere(kurz));
    GezogeneSind(Sortiere(rest), Zuege(w, seed, |rest|), 0, n);
  }

  /** Lotteries are held exactly with 32 validators or more, and enough for committees with somebody in them. */
  lemma AktivGenau(w: Welt, v: seq<string>, s: nat, m: nat, zufall: Hash)
    ensures Aktiv(|v|, s, m) <==> |v| >= 32 && s > 0 && m > 0 && Ausschuesse(w, v, s, m, zufall).Some?
  {
    hide Mische, Geteilt;
  }

  // ---- epochs ------------------------------------------------------------------------------------------

  /** Two epoch blocks that differ in anything give different random values, and no draw of any lottery of the
      one hashes what a draw of the other does. */
  lemma EpochenGetrennt(w: Welt, U: iset<Urbild>, sb: Sammelblock, sb': Sammelblock, l: Lotterie, l': Lotterie,
                        n: nat, n': nat)
    requires Sicher(w, U) && sb != sb' && SammelU(sb) in U && SammelU(sb') in U
    requires ZufallU(w.sha(SammelU(sb)), sb.epoche) in U && ZufallU(w.sha(SammelU(sb')), sb'.epoche) in U
    requires Seedurbild(Sammel.Zufall(w, sb), l) in U && Seedurbild(Sammel.Zufall(w, sb'), l') in U
    ensures Sammel.Zufall(w, sb) != Sammel.Zufall(w, sb')
    ensures ZugU(w.sha(Seedurbild(Sammel.Zufall(w, sb), l)), Zaehler(n))
      != ZugU(w.sha(Seedurbild(Sammel.Zufall(w, sb'), l')), Zaehler(n'))
  {
    assert SammelU(sb) in U && SammelU(sb') in U;
    assert ZufallU(w.sha(SammelU(sb)), sb.epoche) in U && ZufallU(w.sha(SammelU(sb')), sb'.epoche) in U;
    var z, z' := Sammel.Zufall(w, sb), Sammel.Zufall(w, sb');
    assert z != z';
    assert Seedurbild(z, l) != Seedurbild(z', l');
  }
}
