/**
 Byte-wise order on strings and sorting by it. Sorting forgets the order of its
 input, which is what makes lotteries and proofs reproducible.
 */
module Sortierung {

  predicate Kleiner(a: string, b: string) {
    b != [] && (a == [] || a[0] < b[0] || (a[0] == b[0] && Kleiner(a[1..], b[1..])))
  }

  predicate HoechstensGleich(a: string, b: string) { a == b || Kleiner(a, b) }

  predicate Sortiert(s: seq<string>) {
    forall i, j :: 0 <= i < j < |s| ==> HoechstensGleich(s[i], s[j])
  }

  function Einfuegen(a: string, s: seq<string>): seq<string> {
    if s == [] || HoechstensGleich(a, s[0]) then [a] + s else [s[0]] + Einfuegen(a, s[1..])
  }

  function Sortiere(s: seq<string>): seq<string> {
    if s == [] then [] else Einfuegen(s[0], Sortiere(s[1..]))
  }

  lemma {:induction false} KleinerTotal(a: string, b: string)
    ensures a == b || Kleiner(a, b) || Kleiner(b, a)
    ensures !(Kleiner(a, b) && Kleiner(b, a)) && !Kleiner(a, a)
  {
    if a != [] && b != [] {
      KleinerTotal(a[1..], b[1..]);
      assert a == [a[0]] + a[1..] && b == [b[0]] + b[1..];
    }
    if a != [] { KleinerTotal(a[1..], a[1..]); }
  }

  lemma {:induction false} KleinerTransitiv(a: string, b: string, c: string)
    requires Kleiner(a, b) && Kleiner(b, c)
    ensures Kleiner(a, c)
  {
    if a != [] && a[0] == b[0] == c[0] {
      KleinerTransitiv(a[1..], b[1..], c[1..]);
    }
  }

  lemma HoechstensGleichTransitiv(a: string, b: string, c: string)
    requires HoechstensGleich(a, b) && HoechstensGleich(b, c)
    ensures HoechstensGleich(a, c)
  {
    if a != b && b != c { KleinerTransitiv(a, b, c); }
  }

  /** Prepending something no greater than every element keeps a list sorted. */
  lemma Vorangestellt(a: string, s: seq<string>)
    requires Sortiert(s) && forall x :: x in s ==> HoechstensGleich(a, x)
    ensures Sortiert([a] + s)
  {
    hide HoechstensGleich;
    var r := [a] + s;
    forall i, j | 0 <= i < j < |r| ensures HoechstensGleich(r[i], r[j]) {
      assert r[j] == s[j - 1] && s[j - 1] in s;
      if i > 0 { assert r[i] == s[i - 1]; }
    }
  }

  lemma KopfKleinster(s: seq<string>, x: string)
    requires Sortiert(s) && x in s
    ensures HoechstensGleich(s[0], x)
  {
  }

  lemma {:induction false} EinfuegenSortiert(a: string, s: seq<string>)
    requires Sortiert(s)
    ensures Sortiert(Einfuegen(a, s)) && multiset(Einfuegen(a, s)) == multiset{a} + multiset(s)
  {
    if s == [] {
    } else if HoechstensGleich(a, s[0]) {
      forall x | x in s ensures HoechstensGleich(a, x) {
        KopfKleinster(s, x);
        HoechstensGleichTransitiv(a, s[0], x);
      }
      Vorangestellt(a, s);
    } else {
      KleinerTotal(a, s[0]);
      EinfuegenSortiert(a, s[1..]);
      var r := Einfuegen(a, s[1..]);
      assert s == [s[0]] + s[1..];
      forall x | x in r ensures HoechstensGleich(s[0], x) {
        assert x in multiset(r);
        if x != a { KopfKleinster(s, x); }
      }
      Vorangestellt(s[0], r);
    }
  }

  /** Sorting sorts and keeps every element. */
  lemma {:induction false} SortiereRichtig(s: seq<string>)
    ensures Sortiert(Sortiere(s)) && multiset(Sortiere(s)) == multiset(s)
  {
    if s != [] {
      SortiereRichtig(s[1..]);
      EinfuegenSortiert(s[0], Sortiere(s[1..]));
      assert s == [s[0]] + s[1..];
    }
  }

  /** A multiset has one sorted list. */
  lemma {:induction false} SortiertEindeutig(s: seq<string>, t: seq<string>)
    requires Sortiert(s) && Sortiert(t) && multiset(s) == multiset(t)
    ensures s == t
  {
    hide Sortiert;
    assert |s| == |multiset(s)| == |multiset(t)| == |t|;
    if s != [] {
      GleicherKopf(s, t);
      SortierterRest(s);
      SortierterRest(t);
      SortiertEindeutig(s[1..], t[1..]);
      assert s == [s[0]] + s[1..] && t == [t[0]] + t[1..];
    }
  }

  lemma SortierterRest(s: seq<string>)
    requires Sortiert(s) && s != []
    ensures Sortiert(s[1..]) && multiset(s[1..]) == multiset(s) - multiset{s[0]}
  {
    hide HoechstensGleich;
    assert s == [s[0]] + s[1..];
  }

  lemma GleicherKopf(s: seq<string>, t: seq<string>)
    requires Sortiert(s) && Sortiert(t) && multiset(s) == multiset(t) && s != [] && t != []
    ensures s[0] == t[0]
  {
    assert s[0] in multiset(t) && t[0] in multiset(s);
    KopfKleinster(s, t[0]);
    KopfKleinster(t, s[0]);
    KleinerTotal(s[0], t[0]);
  }

  /** The order of the input does not matter. */
  lemma SortiereVergisstReihenfolge(s: seq<string>, t: seq<string>)
    requires multiset(s) == multiset(t)
    ensures Sortiere(s) == Sortiere(t)
  {
    SortiereRichtig(s);
    SortiereRichtig(t);
    SortiertEindeutig(Sortiere(s), Sortiere(t));
  }

  /** The elements of a set in some order. */
  ghost function Aufzaehlung(m: set<string>): (s: seq<string>)
    ensures multiset(s) == multiset(m)
  {
    if m == {} then [] else var a :| a in m; [a] + Aufzaehlung(m - {a})
  }

  /** The elements of a set in ascending order. */
  ghost function SortierteListe(m: set<string>): (s: seq<string>)
    ensures Sortiert(s) && multiset(s) == multiset(m)
  {
    SortiereRichtig(Aufzaehlung(m));
    Sortiere(Aufzaehlung(m))
  }
}
