/**
 The bounded map under concurrent access: each atomic step of its writers and deleters,
 in any interleaving.
 */
module KarteNebenlaeufig {
  import T = Typen

  /** Where a goroutine stands inside a store or a delete. */
  datatype Faden =
    | Ruht
    | Sucht(key: int)      // looked up, not found
    | Darf(key: int)       // found, or found room
    | Gelegt(key: int)     // stored a new key, not yet counted
    | Entfernt(key: int)   // deleted a key, not yet counted

  datatype Aktion = Beginne(key: int) | Loesche(key: int) | Weiter

  datatype Stand = Stand(m: set<int>, anzahl: int, faeden: seq<Faden>)

  /** One atomic step of goroutine i; the first n goroutines may store. */
  function Schritt(max: nat, n: nat, s: Stand, i: nat, a: Aktion): Stand
    requires i < |s.faeden|
  {
    match s.faeden[i]
    case Ruht =>
      if a.Beginne? && i < n then
        s.(faeden := s.faeden[i := if a.key in s.m then Darf(a.key) else Sucht(a.key)])
      else if a.Loesche? && a.key in s.m then
        Stand(s.m - {a.key}, s.anzahl, s.faeden[i := Entfernt(a.key)])
      else s
    case Sucht(k) => s.(faeden := s.faeden[i := if s.anzahl >= max then Ruht else Darf(k)])
    case Darf(k) =>
      if k in s.m then s.(faeden := s.faeden[i := Ruht])
      else Stand(s.m + {k}, s.anzahl, s.faeden[i := Gelegt(k)])
    case Gelegt(_) => Stand(s.m, s.anzahl + 1, s.faeden[i := Ruht])
    case Entfernt(_) => Stand(s.m, s.anzahl - 1, s.faeden[i := Ruht])
  }

  datatype Zug = Zug(faden: nat, aktion: Aktion)

  function Lauf(max: nat, n: nat, s: Stand, zuege: seq<Zug>): (r: Stand)
    requires forall z :: z in zuege ==> z.faden < |s.faeden|
    ensures |r.faeden| == |s.faeden|
  {
    if zuege == [] then s
    else
      var k := |zuege| - 1;
      Schritt(max, n, Lauf(max, n, s, zuege[..k]), zuege[k].faden, zuege[k].aktion)
  }

  predicate Still(s: Stand) { forall i :: 0 <= i < |s.faeden| ==> s.faeden[i] == Ruht }

  // ---- counting goroutines ----------------------------------------------------------------

  function Zahl(f: seq<Faden>, p: Faden -> bool): nat {
    if f == [] then 0 else Zahl(f[..|f| - 1], p) + (if p(f[|f| - 1]) then 1 else 0)
  }

  lemma {:induction false} ZahlNach(f: seq<Faden>, p: Faden -> bool, i: nat, x: Faden)
    requires i < |f|
    ensures Zahl(f[i := x], p) == Zahl(f, p) - (if p(f[i]) then 1 else 0) + (if p(x) then 1 else 0)
  {
    var k := |f| - 1;
    if i < k {
      ZahlNach(f[..k], p, i, x);
      assert f[i := x][..k] == f[..k][i := x];
    } else {
      assert f[i := x][..k] == f[..k];
    }
  }

  const IST_GELEGT: Faden -> bool := (f: Faden) => f.Gelegt?
  const IST_ENTFERNT: Faden -> bool := (f: Faden) => f.Entfernt?
  const SCHREIBT: Faden -> bool := (f: Faden) => f.Darf? || f.Gelegt?

  /** Keys about to be stored. */
  function Vorgemerkt(f: seq<Faden>): set<int> {
    set i | 0 <= i < |f| && f[i].Darf? :: f[i].key
  }

  lemma {:induction false} VorgemerktZahl(f: seq<Faden>)
    ensures |Vorgemerkt(f)| + Zahl(f, IST_GELEGT) <= Zahl(f, SCHREIBT)
  {
    if f == [] {
      assert Vorgemerkt(f) == {};
    } else {
      var k := |f| - 1;
      VorgemerktZahl(f[..k]);
      assert Vorgemerkt(f) == Vorgemerkt(f[..k]) + (if f[k].Darf? then {f[k].key} else {}) by {
        forall x ensures x in Vorgemerkt(f) <==> x in Vorgemerkt(f[..k]) || (f[k].Darf? && x == f[k].key) {
          if x in Vorgemerkt(f[..k]) {
            var i :| 0 <= i < k && f[..k][i].Darf? && f[..k][i].key == x;
            assert f[i].Darf? && f[i].key == x;
          }
          if x in Vorgemerkt(f) {
            var i :| 0 <= i < |f| && f[i].Darf? && f[i].key == x;
            if i < k { assert f[..k][i].Darf? && f[..k][i].key == x; }
          }
        }
      }
    }
  }

  /** Only the first n goroutines are ever inside a store. */
  predicate NurSchreiber(f: seq<Faden>, n: nat) {
    forall i :: 0 <= i < |f| && !f[i].Ruht? && !f[i].Entfernt? ==> i < n
  }

  lemma {:induction false} SchreiberZahl(f: seq<Faden>, n: nat)
    requires NurSchreiber(f, n)
    ensures Zahl(f, SCHREIBT) <= n
  {
    if f != [] {
      var k := |f| - 1;
      SchreiberZahl(f[..k], n);
      if k < n { ZahlLaenge(f[..k]); }
    }
  }

  lemma {:induction false} ZahlLaenge(f: seq<Faden>)
    ensures Zahl(f, SCHREIBT) <= |f|
  {
    if f != [] { ZahlLaenge(f[..|f| - 1]); }
  }

  // ---- what every interleaving keeps ---------------------------------------------------------

  ghost predicate Stimmig(max: nat, n: nat, s: Stand) {
    && NurSchreiber(s.faeden, n)
    && s.anzahl == |s.m| - Zahl(s.faeden, IST_GELEGT) + Zahl(s.faeden, IST_ENTFERNT)
    && |s.m + Vorgemerkt(s.faeden)| <= Schranke(max, n)
  }

  /** One goroutine never overshoots; each further one by at most one. */
  function Schranke(max: nat, n: nat): nat { if n == 0 then max else max + n - 1 }

  lemma VorgemerktNach(f: seq<Faden>, i: nat, x: Faden)
    requires i < |f| && !x.Darf?
    ensures Vorgemerkt(f[i := x]) <= Vorgemerkt(f)
    ensures f[i].Darf? ==> Vorgemerkt(f) == Vorgemerkt(f[i := x]) + {f[i].key}
    ensures !f[i].Darf? ==> Vorgemerkt(f) == Vorgemerkt(f[i := x])
  {
    var g := f[i := x];
    forall k | k in Vorgemerkt(f) && !(f[i].Darf? && k == f[i].key) ensures k in Vorgemerkt(g) {
      var j :| 0 <= j < |f| && f[j].Darf? && f[j].key == k;
      assert g[j].Darf? && g[j].key == k;
    }
    forall k | k in Vorgemerkt(g) ensures k in Vorgemerkt(f) {
      var j :| 0 <= j < |g| && g[j].Darf? && g[j].key == k;
      assert f[j].Darf? && f[j].key == k;
    }
  }

  lemma VorgemerktMit(f: seq<Faden>, i: nat, k: int)
    requires i < |f| && !f[i].Darf?
    ensures Vorgemerkt(f[i := Darf(k)]) == Vorgemerkt(f) + {k}
  {
    var g := f[i := Darf(k)];
    VorgemerktNach(g, i, f[i]);
    assert g[i := f[i]] == f;
  }

  lemma SchrittStimmig(max: nat, n: nat, s: Stand, i: nat, a: Aktion)
    requires Stimmig(max, n, s) && i < |s.faeden|
    ensures Stimmig(max, n, Schritt(max, n, s, i, a))
  {
    hide Stimmig;
    var r := Schritt(max, n, s, i, a);
    if r == s { return; }
    match s.faeden[i]
    case Ruht =>
      if a.Beginne? && a.key in s.m { GefundenStimmig(max, n, s, i, a.key); } else { Austritt(max, n, s, i, a); }
    case Sucht(k) => if s.anzahl < max { Eingelassen(max, n, s, i); } else { Austritt(max, n, s, i, a); }
    case _ => Austritt(max, n, s, i, a);
  }

  /** Steps after which the goroutine is not about to store. */
  lemma Austritt(max: nat, n: nat, s: Stand, i: nat, a: Aktion)
    requires Stimmig(max, n, s) && i < |s.faeden| && !Schritt(max, n, s, i, a).faeden[i].Darf?
    ensures Stimmig(max, n, Schritt(max, n, s, i, a))
  {
    hide Zahl, Vorgemerkt, Stimmig;
    var r := Schritt(max, n, s, i, a);
    VorgemerktNach(s.faeden, i, r.faeden[i]);
    assert r.faeden == s.faeden[i := r.faeden[i]];
    T.Teilmenge(r.m + Vorgemerkt(r.faeden), s.m + Vorgemerkt(s.faeden));
    AnzahlNach(max, n, s, i, a);
  }

  lemma AnzahlNach(max: nat, n: nat, s: Stand, i: nat, a: Aktion)
    requires Stimmig(max, n, s) && i < |s.faeden|
    ensures var r := Schritt(max, n, s, i, a);
      && NurSchreiber(r.faeden, n)
      && r.anzahl == |r.m| - Zahl(r.faeden, IST_GELEGT) + Zahl(r.faeden, IST_ENTFERNT)
      && |s.m + Vorgemerkt(s.faeden)| <= Schranke(max, n)
    ensures Stimmig(max, n, Schritt(max, n, s, i, a)) <==>
      var r := Schritt(max, n, s, i, a); |r.m + Vorgemerkt(r.faeden)| <= Schranke(max, n)
  {
    hide Zahl, Vorgemerkt, Schranke, NurSchreiber, Schritt;
    SchreiberNach(max, n, s, i, a);
    ZaehlerNach(max, n, s, i, a);
  }

  lemma SchreiberNach(max: nat, n: nat, s: Stand, i: nat, a: Aktion)
    requires NurSchreiber(s.faeden, n) && i < |s.faeden|
    ensures NurSchreiber(Schritt(max, n, s, i, a).faeden, n)
  {
    assert s.faeden[i].Ruht? || s.faeden[i].Entfernt? || i < n;
  }

  /** Whatever a step does to the number of keys it owes to the counter or has just paid it. */
  lemma ZaehlerNach(max: nat, n: nat, s: Stand, i: nat, a: Aktion)
    requires i < |s.faeden|
    requires s.anzahl == |s.m| - Zahl(s.faeden, IST_GELEGT) + Zahl(s.faeden, IST_ENTFERNT)
    ensures var r := Schritt(max, n, s, i, a);
      r.anzahl == |r.m| - Zahl(r.faeden, IST_GELEGT) + Zahl(r.faeden, IST_ENTFERNT)
  {
    hide Zahl;
    var r := Schritt(max, n, s, i, a);
    var f, x := s.faeden, r.faeden[i];
    assert r.faeden == f[i := x];
    ZahlNach(f, IST_GELEGT, i, x);
    ZahlNach(f, IST_ENTFERNT, i, x);
    assert r.anzahl - s.anzahl == (if f[i].Gelegt? then 1 else 0) - (if f[i].Entfernt? then 1 else 0);
    assert |r.m| - |s.m|
        == (if x.Gelegt? && !f[i].Gelegt? then 1 else 0) - (if x.Entfernt? && !f[i].Entfernt? then 1 else 0);
  }

  lemma GefundenStimmig(max: nat, n: nat, s: Stand, i: nat, k: int)
    requires Stimmig(max, n, s) && i < |s.faeden| && i < n && s.faeden[i].Ruht? && k in s.m
    ensures Stimmig(max, n, s.(faeden := s.faeden[i := Darf(k)]))
  {
    hide Zahl, Vorgemerkt;
    VorgemerktMit(s.faeden, i, k);
    assert s.m + (Vorgemerkt(s.faeden) + {k}) == s.m + Vorgemerkt(s.faeden);
    ZahlNach(s.faeden, IST_GELEGT, i, Darf(k));
    ZahlNach(s.faeden, IST_ENTFERNT, i, Darf(k));
  }

  /** Whoever saw room leaves at most one key too many per other writer. */
  lemma Eingelassen(max: nat, n: nat, s: Stand, i: nat)
    requires Stimmig(max, n, s) && i < |s.faeden| && s.faeden[i].Sucht? && s.anzahl < max
    ensures Stimmig(max, n, s.(faeden := s.faeden[i := Darf(s.faeden[i].key)]))
  {
    hide Zahl, Vorgemerkt;
    var x := Darf(s.faeden[i].key);
    var g := s.faeden[i := x];
    ZahlNach(s.faeden, IST_GELEGT, i, x);
    ZahlNach(s.faeden, IST_ENTFERNT, i, x);
    SchreiberZahl(g, n);
    VorgemerktZahl(g);
    assert |s.m + Vorgemerkt(g)| <= |s.m| + |Vorgemerkt(g)|;
  }

  /** In every interleaving of n writers and any deleters the map stays within n - 1 keys of its
      bound; and whenever no one is inside, the counter is the number of keys. */
  lemma {:induction false} HoechstensNMinusEinsDarueber(max: nat, n: nat, s: Stand, zuege: seq<Zug>)
    requires Still(s) && s.anzahl == |s.m| <= max
    requires forall z :: z in zuege ==> z.faden < |s.faeden|
    ensures var r := Lauf(max, n, s, zuege);
      && |r.m| <= Schranke(max, n)
      && (Still(r) ==> r.anzahl == |r.m|)
  {
    LaufStimmig(max, n, s, zuege);
    var r := Lauf(max, n, s, zuege);
    T.Teilmenge(r.m, r.m + Vorgemerkt(r.faeden));
    if Still(r) { StillZaehltNull(r.faeden); }
  }

  lemma {:induction false} LaufStimmig(max: nat, n: nat, s: Stand, zuege: seq<Zug>)
    requires Still(s) && s.anzahl == |s.m| <= max
    requires forall z :: z in zuege ==> z.faden < |s.faeden|
    ensures Stimmig(max, n, Lauf(max, n, s, zuege))
  {
    if zuege == [] {
      StillZaehltNull(s.faeden);
      assert s.m + Vorgemerkt(s.faeden) == s.m;
    } else {
      var k := |zuege| - 1;
      LaufStimmig(max, n, s, zuege[..k]);
      SchrittStimmig(max, n, Lauf(max, n, s, zuege[..k]), zuege[k].faden, zuege[k].aktion);
    }
  }

  lemma {:induction false} StillZaehltNull(f: seq<Faden>)
    requires forall i :: 0 <= i < |f| ==> f[i] == Ruht
    ensures Zahl(f, IST_GELEGT) == Zahl(f, IST_ENTFERNT) == 0 && Vorgemerkt(f) == {}
  {
    if f != [] { StillZaehltNull(f[..|f| - 1]); }
  }

  // ---- the bound is reached -------------------------------------------------------------------

  /** Goroutines 0 to k - 1 have been let in, each for the key of its own number. */
  predicate Eingereiht(f: seq<Faden>, k: nat) {
    k <= |f| && forall i :: 0 <= i < |f| ==> f[i] == if i < k then Darf(i) else Ruht
  }

  /** n writers that all look before any of them counts: n keys in a map with room for one. */
  lemma SchrankeErreicht(n: nat) returns (zuege: seq<Zug>)
    requires n > 0
    ensures forall z :: z in zuege ==> z.faden < n
    ensures var r := Lauf(1, n, Stand({}, 0, seq(n, _ => Ruht)), zuege);
      |r.m| == n == Schranke(1, n)
  {
    var s := Stand({}, 0, seq(n, _ => Ruht));
    var hinein := AlleHinein(n, n);
    var ablegen := AlleLegenAb(n, hinein, n);
    zuege := ablegen;
    SoVieleZahlen(n);
  }

  function Zahlen(k: nat): (r: set<int>)
    ensures forall i :: i in r <==> 0 <= i < k
  {
    if k == 0 then {} else Zahlen(k - 1) + {k - 1}
  }

  lemma {:induction false} SoVieleZahlen(k: nat)
    ensures |Zahlen(k)| == k
  {
    if k > 0 {
      SoVieleZahlen(k - 1);
      var z := Zahlen(k - 1);
      assert k - 1 !in z && Zahlen(k) == z + {k - 1};
    }
  }

  lemma {:induction false} AlleHinein(n: nat, k: nat) returns (zuege: seq<Zug>)
    requires k <= n
    ensures forall z :: z in zuege ==> z.faden < n
    ensures var r := Lauf(1, n, Stand({}, 0, seq(n, _ => Ruht)), zuege);
      r.m == {} && r.anzahl == 0 && Eingereiht(r.faeden, k)
  {
    zuege := [];
    if k > 0 {
      hide Schritt, Eingereiht;
      var s := Stand({}, 0, seq(n, _ => Ruht));
      var vorher := AlleHinein(n, k - 1);
      var eins := vorher + [Zug(k - 1, Beginne(k - 1))];
      zuege := eins + [Zug(k - 1, Weiter)];
      LaufMit(1, n, s, vorher, Zug(k - 1, Beginne(k - 1)));
      LaufMit(1, n, s, eins, Zug(k - 1, Weiter));
      EinerHinein(n, Lauf(1, n, s, vorher), k - 1);
    }
  }

  lemma LaufMit(max: nat, n: nat, s: Stand, zuege: seq<Zug>, z: Zug)
    requires z.faden < |s.faeden| && forall y :: y in zuege ==> y.faden < |s.faeden|
    ensures Lauf(max, n, s, zuege + [z]) == Schritt(max, n, Lauf(max, n, s, zuege), z.faden, z.aktion)
  {
    hide Schritt;
    assert (zuege + [z])[..|zuege|] == zuege;
  }

  /** Goroutine k looks up a new key and sees room. */
  lemma EinerHinein(n: nat, r: Stand, k: nat)
    requires k < n == |r.faeden| && r.m == {} && r.anzahl == 0 && Eingereiht(r.faeden, k)
    ensures var r' := Schritt(1, n, r, k, Beginne(k));
      && |r'.faeden| == n
      && var r'' := Schritt(1, n, r', k, Weiter); r''.m == {} && r''.anzahl == 0 && Eingereiht(r''.faeden, k + 1)
  {
  }

  /** After that the first k of them store their keys. */
  lemma {:induction false} AlleLegenAb(n: nat, hinein: seq<Zug>, k: nat) returns (zuege: seq<Zug>)
    requires k <= n && forall z :: z in hinein ==> z.faden < n
    requires var r := Lauf(1, n, Stand({}, 0, seq(n, _ => Ruht)), hinein);
      r.m == {} && r.anzahl == 0 && Eingereiht(r.faeden, n)
    ensures forall z :: z in zuege ==> z.faden < n
    ensures var r := Lauf(1, n, Stand({}, 0, seq(n, _ => Ruht)), zuege);
      r.m == Zahlen(k) && forall i :: k <= i < n ==> r.faeden[i] == Darf(i)
  {
    zuege := hinein;
    if k > 0 {
      var vorher := AlleLegenAb(n, hinein, k - 1);
      zuege := vorher + [Zug(k - 1, Weiter)];
      LaufMit(1, n, Stand({}, 0, seq(n, _ => Ruht)), vorher, Zug(k - 1, Weiter));
      assert Zahlen(k) == Zahlen(k - 1) + {k - 1};
    }
  }
}
