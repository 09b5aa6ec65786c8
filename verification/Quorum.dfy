/**
 What two thirds of a committee are worth: two confirmed heads share a third of the
 members, so a committee in which fewer sign twice confirms one block per number.
 */
module Quorum {
  import opened Typen
  import opened Bereich

  /** The committee members with a valid signature over n. */
  function Unterzeichner(w: Welt, sig: map<string, seq<int>>, ausschuss: seq<string>, n: Nachricht): set<string> {
    set a | a in ausschuss && HatUnterschrieben(w, sig, a, n)
  }

  function Menge(s: seq<string>): set<string> { set a | a in s }

  lemma {:induction false} MengeVon(s: seq<string>)
    requires Verschieden(s)
    ensures |Menge(s)| == |s|
  {
    if s != [] {
      var n := |s| - 1;
      MengeVon(s[..n]);
      assert s[n] !in s[..n];
      assert Menge(s) == Menge(s[..n]) + {s[n]};
    }
  }

  lemma LetzterFremd(s: seq<string>)
    requires Verschieden(s) && s != []
    ensures Verschieden(s[..|s| - 1]) && s[|s| - 1] !in s[..|s| - 1]
  {
  }

  /** In a committee without repetitions the count is the number of signers. */
  lemma {:induction false} ZaehleGenau(w: Welt, sig: map<string, seq<int>>, ausschuss: seq<string>, n: Nachricht)
    requires Verschieden(ausschuss)
    ensures Zaehle(w, sig, ausschuss, n) == |Unterzeichner(w, sig, ausschuss, n)| <= |ausschuss|
  {
    hide HatUnterschrieben, Verschieden;
    if ausschuss != [] {
      var k := |ausschuss| - 1;
      LetzterFremd(ausschuss);
      var a, vorne := ausschuss[k], Unterzeichner(w, sig, ausschuss[..k], n);
      ZaehleGenau(w, sig, ausschuss[..k], n);
      assert ausschuss == ausschuss[..k] + [a];
      assert a !in vorne;
      assert Unterzeichner(w, sig, ausschuss, n) == if HatUnterschrieben(w, sig, a, n) then vorne + {a} else vorne;
    }
  }

  /** Two thirds, and no more than it takes. */
  lemma MehrheitKleinste(m: nat)
    ensures 3 * Mehrheit(m) >= 2 * m
    ensures forall k: nat :: 3 * k >= 2 * m ==> Mehrheit(m) <= k
  {
  }

  /** A committee without repetitions has confirmed a block exactly if two thirds of its members or more
      have a valid signature over the head in it. */
  lemma BestaetigtGenau(w: Welt, b: BereichsBlock, ausschuss: seq<string>)
    requires Verschieden(ausschuss)
    ensures BestaetigtVon(w, b, ausschuss) <==>
      3 * |set a | a in ausschuss && a in b.sig && w.bestaetigt(a, Nachricht(false, Kopf(w, b)), b.sig[a])|
        >= 2 * |ausschuss|
  {
    hide Kopf;
    var n := Nachricht(false, Kopf(w, b));
    ZaehleGenau(w, b.sig, ausschuss, n);
    MehrheitKleinste(|ausschuss|);
    forall a | a in b.sig ensures b.sig[a][0..] == b.sig[a] {}
    assert Unterzeichner(w, b.sig, ausschuss, n)
      == set a | a in ausschuss && a in b.sig && w.bestaetigt(a, n, b.sig[a]);
  }

  /** sig is the mark of a check, "pruef:", and a valid signature of a over head k with it. */
  predicate Pruefvermerk(w: Welt, a: string, k: Hash, sig: seq<int>) {
    |sig| >= 6 && sig[..6] == [112, 114, 117, 101, 102, 58] && w.bestaetigt(a, Nachricht(true, k), sig[6..])
  }

  /** Checkers have passed a block exactly if two thirds of them or more have a marked signature in it. */
  lemma GeprueftGenau(w: Welt, b: BereichsBlock, pruefer: seq<string>)
    requires Verschieden(pruefer)
    ensures GeprueftVon(w, b, pruefer) <==>
      3 * |set a | a in pruefer && a in b.pruefSig && Pruefvermerk(w, a, Kopf(w, b), b.pruefSig[a])| >= 2 * |pruefer|
  {
    hide Kopf;
    var n := Nachricht(true, Kopf(w, b));
    ZaehleGenau(w, b.pruefSig, pruefer, n);
    MehrheitKleinste(|pruefer|);
    assert Unterzeichner(w, b.pruefSig, pruefer, n)
      == set a | a in pruefer && a in b.pruefSig && Pruefvermerk(w, a, Kopf(w, b), b.pruefSig[a]);
  }

  lemma Schnitt(a: set<string>, b: set<string>, ganz: set<string>)
    requires a <= ganz && b <= ganz
    ensures |a * b| >= |a| + |b| - |ganz|
  {
    assert |a + b| + |a * b| == |a| + |b|;
    Teilmenge(a + b, ganz);
  }

  /** Members whose valid signatures stand under both messages. */
  function Doppelt(w: Welt, sig: map<string, seq<int>>, n: Nachricht, sig': map<string, seq<int>>, n': Nachricht,
                   ausschuss: seq<string>): set<string>
  {
    Unterzeichner(w, sig, ausschuss, n) * Unterzeichner(w, sig', ausschuss, n')
  }

  /** Two confirmed messages share at least 2 Mehrheit(m) - m members, which is a third or more. */
  lemma EinDrittelGemeinsam(w: Welt, sig: map<string, seq<int>>, n: Nachricht, sig': map<string, seq<int>>,
                            n': Nachricht,
                            ausschuss: seq<string>)
    requires Verschieden(ausschuss)
    requires Zaehle(w, sig, ausschuss, n) >= Mehrheit(|ausschuss|)
    requires Zaehle(w, sig', ausschuss, n') >= Mehrheit(|ausschuss|)
    ensures |Doppelt(w, sig, n, sig', n', ausschuss)| >= 2 * Mehrheit(|ausschuss|) - |ausschuss|
    ensures 3 * |Doppelt(w, sig, n, sig', n', ausschuss)| >= |ausschuss|
  {
    hide HatUnterschrieben;
    ZaehleGenau(w, sig, ausschuss, n);
    ZaehleGenau(w, sig', ausschuss, n');
    MengeVon(ausschuss);
    Schnitt(Unterzeichner(w, sig, ausschuss, n), Unterzeichner(w, sig', ausschuss, n'), Menge(ausschuss));
  }

  /** Less cannot be had: the first and the last Mehrheit(m) members meet in just that many. */
  lemma DrittelIstScharf(w: Welt, n: Nachricht, n': Nachricht, ausschuss: seq<string>, s: (string,
                         Nachricht) -> seq<int>)
    returns (sig: map<string, seq<int>>, sig': map<string, seq<int>>)
    requires Verschieden(ausschuss) && !n.pruef && !n'.pruef
    requires forall a, m :: a in ausschuss ==> w.bestaetigt(a, m, s(a, m))
    ensures Zaehle(w, sig, ausschuss, n) >= Mehrheit(|ausschuss|)
    ensures Zaehle(w, sig', ausschuss, n') >= Mehrheit(|ausschuss|)
    ensures |sig.Keys * sig'.Keys| == 2 * Mehrheit(|ausschuss|) - |ausschuss|
  {
    hide HatUnterschrieben, Zaehle, Verschieden;
    var m, k := |ausschuss|, Mehrheit(|ausschuss|);
    var vorne, hinten := ausschuss[..k], ausschuss[m - k..];
    assert ausschuss == vorne + ausschuss[k..] && ausschuss == ausschuss[..m - k] + hinten;
    Getrennt(vorne, ausschuss[k..]);
    Getrennt(ausschuss[..m - k], hinten);
    sig, sig' := Unterschriften(n, vorne, s), Unterschriften(n', hinten, s);
    NurSie(w, sig, ausschuss, n, vorne, s);
    NurSie(w, sig', ausschuss, n', hinten, s);
    Ueberlappung(ausschuss, k);
    assert sig.Keys == Menge(vorne) && sig'.Keys == Menge(hinten);
  }

  /** The first and the last k of s have 2 k - |s| in common. */
  lemma Ueberlappung(s: seq<string>, k: nat)
    requires Verschieden(s) && k <= |s| <= 2 * k
    ensures |Menge(s[..k]) * Menge(s[|s| - k..])| == 2 * k - |s|
  {
    var x, mitte, y := s[..|s| - k], s[|s| - k..k], s[k..];
    assert s[..k] == x + mitte && s[|s| - k..] == mitte + y && s == x + mitte + y;
    MengeVonSumme(x, mitte);
    MengeVonSumme(mitte, y);
    Getrennt(x, mitte);
    Getrennt(x + mitte, y);
    MengeVon(mitte);
    assert Menge(s[..k]) * Menge(s[|s| - k..]) == Menge(mitte);
  }

  lemma MengeVonSumme(x: seq<string>, y: seq<string>)
    ensures Menge(x + y) == Menge(x) + Menge(y)
  {
  }

  lemma Getrennt(x: seq<string>, y: seq<string>)
    requires Verschieden(x + y)
    ensures Verschieden(x) && Verschieden(y) && Menge(x) !! Menge(y)
  {
    assert forall i :: 0 <= i < |x| ==> (x + y)[i] == x[i];
    assert forall j :: 0 <= j < |y| ==> (x + y)[|x| + j] == y[j];
  }

  /** Signatures of just these members. */
  function Unterschriften(n: Nachricht, wer: seq<string>, s: (string, Nachricht) -> seq<int>): map<string, seq<int>> {
    map a | a in wer :: s(a, n)
  }

  lemma NurSie(w: Welt, sig: map<string, seq<int>>, ausschuss: seq<string>, n: Nachricht, wer: seq<string>,
               s: (string, Nachricht) -> seq<int>)
    requires Verschieden(ausschuss) && !n.pruef && forall a, m :: a in ausschuss ==> w.bestaetigt(a, m, s(a, m))
    requires sig == Unterschriften(n, wer, s) && Verschieden(wer) && forall a :: a in wer ==> a in ausschuss
    ensures Zaehle(w, sig, ausschuss, n) == |wer|
  {
    ZaehleGenau(w, sig, ausschuss, n);
    MengeVon(wer);
    assert Unterzeichner(w, sig, ausschuss, n) == Menge(wer);
  }

  // ---- one block per number -------------------------------------------------------------

  predicate GleicheStelle(b: BereichsBlock, b': BereichsBlock) {
    b.bereich == b'.bereich && b.epoche == b'.epoche && b.nr == b'.nr
  }

  /** Among the blocks ever published, a stands under at most one head per shard, epoch and number. */
  ghost predicate SigniertEinmal(w: Welt, umlauf: iset<BereichsBlock>, a: string) {
    forall b, b' :: b in umlauf && b' in umlauf && GleicheStelle(b, b') ==>
      Unterschrieben(w, a, b) && Unterschrieben(w, a, b') ==> Kopf(w, b) == Kopf(w, b')
  }

  predicate Unterschrieben(w: Welt, a: string, b: BereichsBlock) {
    HatUnterschrieben(w, b.sig, a, Nachricht(false, Kopf(w, b)))
  }

  /** Fewer than a third sign twice: two blocks confirmed for one place have one head. */
  lemma EinigUeberKopf(w: Welt, umlauf: iset<BereichsBlock>, b: BereichsBlock, b': BereichsBlock,
                       ausschuss: seq<string>)
    requires b in umlauf && b' in umlauf && ausschuss != [] && Verschieden(ausschuss) && GleicheStelle(b, b')
    requires 3 * |set a | a in ausschuss && !SigniertEinmal(w, umlauf, a)| < |ausschuss|
    requires BestaetigtVon(w, b, ausschuss) && BestaetigtVon(w, b', ausschuss)
    ensures Kopf(w, b) == Kopf(w, b')
  {
    hide HatUnterschrieben, Kopf, SigniertEinmal;
    var n, n' := Nachricht(false, Kopf(w, b)), Nachricht(false, Kopf(w, b'));
    EinDrittelGemeinsam(w, b.sig, n, b'.sig, n', ausschuss);
    var untreu := set a | a in ausschuss && !SigniertEinmal(w, umlauf, a);
    var beide := Doppelt(w, b.sig, n, b'.sig, n', ausschuss);
    if beide <= untreu {
      Teilmenge(beide, untreu);
      assert false;
    }
    var a :| a in beide && a !in untreu;
    Einmal(w, umlauf, a, b, b');
  }

  lemma Einmal(w: Welt, umlauf: iset<BereichsBlock>, a: string, b: BereichsBlock, b': BereichsBlock)
    requires b in umlauf && b' in umlauf && SigniertEinmal(w, umlauf, a)
    requires GleicheStelle(b, b') && Unterschrieben(w, a, b) && Unterschrieben(w, a, b')
    ensures Kopf(w, b) == Kopf(w, b')
  {
  }

  /** The inputs hashed on the way to a head. */
  ghost predicate KopfIn(w: Welt, U: iset<Urbild>, b: BereichsBlock) {
    && EingabenU(b.eingaben) in U && AusgangU(b.ausgang) in U
    && BlockU(b.bereich, b.epoche, b.nr, b.vor, w.sha(EingabenU(b.eingaben))) in U
    && KopfU(EingabenID(w, b), b.nach, b.rahmen, w.sha(AusgangU(b.ausgang)), b.teilsumme, b.geldmenge, b.menschen) in U
  }

  /** A head fixes everything in a block but the signatures. */
  lemma KopfBindet(w: Welt, U: iset<Urbild>, b: BereichsBlock, b': BereichsBlock)
    requires Sicher(w, U) && KopfIn(w, U, b) && KopfIn(w, U, b') && Kopf(w, b) == Kopf(w, b')
    ensures b'.(sig := b.sig, pruefSig := b.pruefSig) == b
  {
    assert EingabenID(w, b) == EingabenID(w, b');
    assert w.sha(EingabenU(b.eingaben)) == w.sha(EingabenU(b'.eingaben));
    assert w.sha(AusgangU(b.ausgang)) == w.sha(AusgangU(b'.ausgang));
  }

  /** So an honest enough committee agrees on the whole block. */
  lemma EinigUeberBlock(w: Welt, U: iset<Urbild>, umlauf: iset<BereichsBlock>, b: BereichsBlock, b': BereichsBlock,
                        ausschuss: seq<string>)
    requires Sicher(w, U) && KopfIn(w, U, b) && KopfIn(w, U, b')
    requires b in umlauf && b' in umlauf && ausschuss != [] && Verschieden(ausschuss) && GleicheStelle(b, b')
    requires 3 * |set a | a in ausschuss && !SigniertEinmal(w, umlauf, a)| < |ausschuss|
    requires BestaetigtVon(w, b, ausschuss) && BestaetigtVon(w, b', ausschuss)
    ensures b'.(sig := b.sig, pruefSig := b.pruefSig) == b
  {
    hide SigniertEinmal, Kopf, KopfIn, Sicher, BestaetigtVon;
    EinigUeberKopf(w, umlauf, b, b', ausschuss);
    KopfBindet(w, U, b, b');
  }

  /** An empty committee confirms every block. */
  lemma LeererAusschussBestaetigt(w: Welt, b: BereichsBlock)
    ensures BestaetigtVon(w, b, []) && GeprueftVon(w, b, [])
  {
  }
}
