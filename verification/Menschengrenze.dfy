/**
 The bound on the number of people is the true one: with one person more, a network whose books
 are in order loses them in a single block.
 */
module Menschengrenze {
  import opened Typen
  import opened Uebergang
  import opened Geld
  import opened Sammel
  import opened Netz
  import L = Netzlauf
  import S = Smt

  /** Different names for different numbers. */
  function Name(i: nat): string { seq(i + 1, _ => 'a') }

  /** n people, one of whom holds everything. */
  function Leute(n: nat, geld: Int64): map<string, Konto> {
    if n == 0 then map[] else Leute(n - 1, geld)[Name(n - 1) := Konto(if n == 1 then geld else 0, true, 0, 0)]
  }

  lemma {:induction false} NameNeu(n: nat, geld: Int64, i: nat)
    requires n <= i
    ensures Name(i) !in Leute(n, geld)
  {
    if n > 0 {
      NameNeu(n - 1, geld, i);
      assert |Name(n - 1)| != |Name(i)|;
    }
  }

  lemma {:induction false} LeuteSumme(n: nat, geld: Int64, f: Konto -> int)
    requires n > 0 && f(LEERES_KONTO) == 0 && 0 <= f(Konto(0, true, 0, 0)) <= 1
    ensures Summe(Leute(n, geld), f)
         == f(Konto(geld, true, 0, 0)) + (if f(Konto(0, true, 0, 0)) == 1 then n - 1 else 0)
  {
    hide Summe;
    NameNeu(n - 1, geld, n - 1);
    if n == 1 {
      SummeLeer(f);
    } else {
      LeuteSumme(n - 1, geld, f);
    }
    SummeMit(Leute(n - 1, geld), f, Name(n - 1), Konto(if n == 1 then geld else 0, true, 0, 0));
  }

  lemma {:induction false} LeuteOrdentlich(n: nat, geld: Int64)
    requires 0 <= geld
    ensures Ordentlich(0, Leute(n, geld)) && (n > 0 ==> Inhalt(Leute(n, geld), Name(0)) == Konto(geld, true, 0, 0))
  {
    if n > 0 {
      LeuteOrdentlich(n - 1, geld);
      assert n > 1 ==> |Name(n - 1)| != |Name(0)|;
    }
  }

  ghost function Grenznetz(w: Welt, n: nat): Netz
    requires 0 < n && GRUNDBETRAG * n < ZWEI63
  {
    var geld: Int64 := GRUNDBETRAG * n;
    var z := Voll(S.LEERER_BAUM, Leute(n, geld));
    var s := ANFANG.(geldmenge := geld, menschen := n, geschoepft := geld);
    var b := BereichsBlock(0, 1, 0, NULL, S.Wurzel(z.baum), RahmenAus(s, 1), Eingaben([], [], []), [], NULLSUMME,
                           geld, n, map[], map[]);
    Netz([z], [Some(b)], multiset{}, s, [])
  }

  /** The rich one leaves with an amount whose fee wraps. */
  function Austritt(): Ueberweisung { Ueberweisung(Name(0), "", 922_337_203_685_477_581, 0, true, []) }

  function Zug(): Aktion { Rechne(0, Eingaben([], [], [Austritt()]), map[]) }

  lemma GrenznetzErhalten(w: Welt, n: nat)
    requires 0 < n && GRUNDBETRAG * n < ZWEI63
    ensures Erhaltung(Grenznetz(w, n)) && AlleMenschen(Grenznetz(w, n)) == n
  {
    hide Summe, Leute;
    var g := Grenznetz(w, n);
    var z := g.zustaende[0];
    LeuteSumme(n, GRUNDBETRAG * n, Guthaben);
    LeuteSumme(n, GRUNDBETRAG * n, Geld.Kopf);
    LeuteSumme(n, GRUNDBETRAG * n, Anspruch(0));
    LeuteOrdentlich(n, GRUNDBETRAG * n);
    forall f: Konto -> int ensures Gesamt(g.zustaende, f) == Summe(z.konten, f) { EinBereich(z, f); }
    assert Gesamt(g.zustaende, Guthaben) == GRUNDBETRAG * n;
    assert Gesamt(g.zustaende, Geld.Kopf) == n;
    assert Gesamt(g.zustaende, Anspruch(0)) == 0;
  }

  lemma EinBereich(z: Zustand, f: Konto -> int)
    ensures Gesamt([z], f) == Summe(z.konten, f)
  {
    hide Summe;
    assert [z][..0] == [];
  }

  lemma AustrittGelingt(w: Welt, n: nat)
    requires MENSCHENGRENZE <= n && GRUNDBETRAG * n < ZWEI63
    requires w.bereichVon(Name(0), 1) == 0 && w.signiert(Austritt())
    ensures var g := Grenznetz(w, n);
      && Moeglich(w, g, Zug()) && Probe(w, g, 0, Zug().eingaben).lauf.t.gebuehren == -922_337_203_685_477
  {
    hide Leute, SetzeKonto, Vorschlag, S.Wurzel;
    var g, e, u := Grenznetz(w, n), Zug().eingaben, Austritt();
    var z, b := g.zustaende[0], BlockVon(w, g, 0, e);
    LeuteOrdentlich(n, GRUNDBETRAG * n);
    assert Wrap(u.betrag * 10) == u.betrag * 10 - ZWEI64;
    assert Gebuehr(u.betrag) == -922_337_203_685_477;
    assert u.von != u.an by { assert |Name(0)| == 1; }
    assert Plan(e) == [Zahlung(0, u)] && Plan(e)[1..] == [];
    assert LiesKonto(z, u.von) == Some(Konto(GRUNDBETRAG * n, true, 0, 0));
    var k := Konto(GRUNDBETRAG * n, true, 0, 0);
    assert Nachgetragen(b.rahmen, k) == k && Gedeckt(u, k) && !VorabUebersprungen(w, u);
    var x := Tue(w, b, Anfang(z), Zahlung(0, u));
    assert x.Weiter? && x.lauf.t.gebuehren == -922_337_203_685_477;
    assert Folge(w, b, Anfang(z), Plan(e)) == x;
    assert Probe(w, g, 0, e) == Folge(w, b, Anfang(z), Plan(e));
    assert multiset(e.eingang) <= g.offen;
  }

  /** With 921,414,867 people or more the books can be in order and one possible block puts them out
      of order; with fewer, no block does. */
  lemma Ueberschritten(w: Welt, n: nat)
    requires MENSCHENGRENZE <= n && GRUNDBETRAG * n < ZWEI63
    requires w.bereichVon(Name(0), 1) == 0 && w.signiert(Austritt())
    ensures var g := Grenznetz(w, n);
      Erhaltung(g) && AlleMenschen(g) == n && Moeglich(w, g, Zug()) && !Bilanz(Tritt(w, g, Zug()))
  {
    hide Summe, Gesamt, Summiere, Leute, Probe, Ehrlich, Erhaltung;
    var g := Grenznetz(w, n);
    GrenznetzErhalten(w, n);
    AustrittGelingt(w, n);
    SummenNachBlock(w, g, Zug(), Guthaben);
    L.OhneBloecke(g);
    assert Neu(Tritt(w, g, Zug())) < 0;
  }
}
