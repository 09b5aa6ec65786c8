/**
 What a bundle books, account by account, told from the state before it and the list of its
 orders alone, and what each signature in it stands under.
 */
module ZkBuchung {
  import opened ZkBaum
  import opened ZkKreis
  import opened ZkZustand
  import T = Typen

  /** What account j pays, receives, and how often it orders. */
  function Abgang(auftraege: seq<Auftrag>, j: nat): int
    decreases |auftraege|
  {
    if auftraege == [] then 0
    else (if auftraege[0].von == j then auftraege[0].betrag else 0) + Abgang(auftraege[1..], j)
  }

  function Zugang(auftraege: seq<Auftrag>, j: nat): int
    decreases |auftraege|
  {
    if auftraege == [] then 0
    else (if auftraege[0].an == j then auftraege[0].betrag else 0) + Zugang(auftraege[1..], j)
  }

  function Anzahl(auftraege: seq<Auftrag>, j: nat): int
    decreases |auftraege|
  {
    if auftraege == [] then 0 else (if auftraege[0].von == j then 1 else 0) + Anzahl(auftraege[1..], j)
  }

  /** Balance and nonce of account j after the orders, in whole numbers. */
  function Stand(ks: seq<Konto>, auftraege: seq<Auftrag>, j: nat): int
    requires j < |ks|
  {
    ks[j].guthaben + Zugang(auftraege, j) - Abgang(auftraege, j)
  }

  function Folgenonce(ks: seq<Konto>, auftraege: seq<Auftrag>, j: nat): int
    requires j < |ks|
  {
    ks[j].nonce + Anzahl(auftraege, j)
  }

  lemma RestGleich(x: int, y: int, d: int, m: int)
    requires m > 0 && x % m == y % m
    ensures (x + d) % m == (y + d) % m
  {
    var q, q' := x / m, y / m;
    assert x + d == (y + d) + (q - q') * m;
    RestVielfaches(y + d, q - q', m);
  }

  lemma {:induction false} RestVielfaches(x: int, k: int, m: int)
    requires m > 0
    ensures (x + k * m) % m == x % m
    decreases if k < 0 then -k else k
  {
    if k > 0 {
      RestVielfaches(x, k - 1, m);
      RestPlus(x + (k - 1) * m, m);
      assert x + k * m == x + (k - 1) * m + m;
    } else if k < 0 {
      RestVielfaches(x, k + 1, m);
      RestPlus(x + k * m, m);
      assert x + (k + 1) * m == x + k * m + m;
    }
  }

  lemma RestPlus(x: int, m: int)
    requires m > 0
    ensures (x + m) % m == x % m
  {
    assert x == m * (x / m) + x % m;
    assert x + m == m * (x / m + 1) + x % m;
    RestEindeutig(m, x / m + 1, x % m, x + m);
  }

  lemma RestEindeutig(m: int, q: int, r: int, x: int)
    requires 0 <= r < m && x == m * q + r
    ensures x % m == r
  {
    var q', r' := x / m, x % m;
    assert m * (q - q') == r' - r;
    if q > q' { T.Produkt(m, q - q' - 1); }
    if q < q' { T.Produkt(m, q' - q - 1); }
  }

  // ---- what the circuit accepts ---------------------------------------------------------------

  /** Order i of a bundle: between two different accounts, covered, without overflow, and signed by
      the sender's key over both indices, the amount and the nonce of that moment. */
  predicate Beglaubigt(c: Krypto, ks: seq<Konto>, txs: seq<TxZeuge>, i: nat)
    requires i < |txs|
  {
    var tx, davor := txs[i], AuftraegeVon(txs[..i]);
    && tx.vonIndex < |ks| && tx.anIndex < |ks| && tx.vonIndex != tx.anIndex
    && tx.betrag <= Stand(ks, davor, tx.vonIndex) && Stand(ks, davor, tx.anIndex) + tx.betrag < ZWEI64
    && c.gueltig(ks[tx.vonIndex].x, ks[tx.vonIndex].y,
                 c.mimc([tx.vonIndex, tx.anIndex, tx.betrag, Folgenonce(ks, davor, tx.vonIndex) % P]), tx.sig)
  }

  /** What is said of the state after the first order holds of the state before it. */
  lemma EinsZurueck(ks: seq<Konto>, auftraege: seq<Auftrag>, j: nat)
    requires auftraege != [] && Ueberweise(ks, auftraege[0]).Some? && j < |ks|
    ensures var ks' := Ueberweise(ks, auftraege[0]).wert;
      && |ks'| == |ks| && ks'[j].x == ks[j].x && ks'[j].y == ks[j].y
      && Stand(ks', auftraege[1..], j) == Stand(ks, auftraege, j)
      && Folgenonce(ks', auftraege[1..], j) % P == Folgenonce(ks, auftraege, j) % P
  {
    var ks' := Ueberweise(ks, auftraege[0]).wert;
    RestGleich(ks'[j].nonce, ks[j].nonce + if auftraege[0].von == j then 1 else 0, Anzahl(auftraege[1..], j), P);
  }

  lemma {:induction false} SigniertDannBeglaubigt(c: Krypto, ks: seq<Konto>, txs: seq<TxZeuge>, i: nat)
    requires AlleSigniert(c, ks, txs) && i < |txs|
    ensures Beglaubigt(c, ks, txs, i)
    decreases i
  {
    if i == 0 {
      assert AuftraegeVon(txs[..0]) == [];
    } else {
      hide Stand, Folgenonce, Ueberweise;
      var tx, davor, ks' := txs[i], AuftraegeVon(txs[..i]), Ueberweise(ks, AuftragVon(txs[0])).wert;
      SigniertDannBeglaubigt(c, ks', txs[1..], i - 1);
      assert davor[0] == AuftragVon(txs[0]) && davor[1..] == AuftraegeVon(txs[1..][..i - 1]);
      UeberweiseLaenge(ks, AuftragVon(txs[0]));
      EinsZurueck(ks, davor, tx.vonIndex);
      EinsZurueck(ks, davor, tx.anIndex);
    }
  }

  lemma UeberweiseLaenge(ks: seq<Konto>, a: Auftrag)
    requires Ueberweise(ks, a).Some?
    ensures |Ueberweise(ks, a).wert| == |ks|
  {
  }

  lemma {:induction false} StandNachAllen(ks: seq<Konto>, auftraege: seq<Auftrag>, j: nat)
    requires UeberweiseAlle(ks, auftraege).Some? && j < |ks|
    ensures var ks' := UeberweiseAlle(ks, auftraege).wert;
      && |ks'| == |ks| && ks'[j].x == ks[j].x && ks'[j].y == ks[j].y
      && ks'[j].guthaben == Stand(ks, auftraege, j) && ks'[j].nonce == Folgenonce(ks, auftraege, j) % P
    decreases |auftraege|
  {
    if auftraege != [] {
      hide Stand, Folgenonce, Ueberweise;
      UeberweiseLaenge(ks, auftraege[0]);
      StandNachAllen(Ueberweise(ks, auftraege[0]).wert, auftraege[1..], j);
      EinsZurueck(ks, auftraege, j);
    }
  }

  /** A satisfying bundle, on fields: every order in it is authenticated, and the new root is that of
      the accounts that result, each with its old key, what it held less what it paid plus what it
      received, and its nonce one up per order. */
  lemma KreisBucht(c: Krypto, U: iset<seq<Feld>>, ks: seq<Konto>, t: nat, txs: seq<TxZeuge>, ende: Feld)
    returns (ks': seq<Konto>)
    requires |ks| == Zwei(t) <= P && Gedeckt64(ks) && forall tx :: tx in txs ==> Tief(tx, t) && ZeugeIn(c, U, tx)
    requires Kollisionsfrei(c, U) && ZustandIn(c, U, ks, t)
    requires TxsErfuellt(c, Wurzel(c, ks, t), txs, ende)
    ensures forall i :: 0 <= i < |txs| ==> Beglaubigt(c, ks, txs, i)
    ensures |ks'| == |ks| && ende == Wurzel(c, ks', t)
    ensures forall j :: 0 <= j < |ks| ==>
      && ks'[j].x == ks[j].x && ks'[j].y == ks[j].y
      && ks'[j].guthaben == Stand(ks, AuftraegeVon(txs), j)
      && ks'[j].nonce == Folgenonce(ks, AuftraegeVon(txs), j) % P
  {
    hide Wurzel, ZustandIn, ZeugeIn, Kollisionsfrei, Gedeckt64, Ueberweise, Guthabensumme, FuehrtZu, TxsErfuellt,
      Beglaubigt, AlleSigniert, UeberweiseAlle, Stand, Folgenonce;
    KreisKorrekt(c, U, ks, t, txs, ende);
    ks' := UeberweiseAlle(ks, AuftraegeVon(txs)).wert;
    forall i | 0 <= i < |txs| ensures Beglaubigt(c, ks, txs, i) { SigniertDannBeglaubigt(c, ks, txs, i); }
    forall j | 0 <= j < |ks|
      ensures ks'[j].x == ks[j].x && ks'[j].y == ks[j].y && ks'[j].guthaben == Stand(ks, AuftraegeVon(txs), j)
      ensures ks'[j].nonce == Folgenonce(ks, AuftraegeVon(txs), j) % P
    {
      StandNachAllen(ks, AuftraegeVon(txs), j);
    }
  }

  // ---- what a signature covers --------------------------------------------------------------------

  /** The message of a transfer fixes both indices, the amount and the nonce. */
  lemma NachrichtBindet(c: Krypto, M: iset<seq<Feld>>, von: Feld, an: Feld, betrag: Feld, nonce: Feld,
                        von': Feld, an': Feld, betrag': Feld, nonce': Feld)
    requires Kollisionsfrei(c, M) && [von, an, betrag, nonce] in M && [von', an', betrag', nonce'] in M
    requires Nachricht(c, von, an, betrag, nonce) == Nachricht(c, von', an', betrag', nonce')
    ensures von == von' && an == an' && betrag == betrag' && nonce == nonce'
  {
    var x: seq<Feld>, y: seq<Feld> := [von, an, betrag, nonce], [von', an', betrag', nonce'];
    assert x == y;
    assert x[0] == y[0] && x[1] == y[1] && x[2] == y[2] && x[3] == y[3];
  }

  /** What order i of a bundle is signed over. */
  function Signiert(ks: seq<Konto>, txs: seq<TxZeuge>, i: nat): seq<Feld>
    requires i < |txs| && txs[i].vonIndex < |ks|
  {
    [txs[i].vonIndex, txs[i].anIndex, txs[i].betrag,
     Folgenonce(ks, AuftraegeVon(txs[..i]), txs[i].vonIndex) % P]
  }

  lemma {:induction false} AnzahlDavor(auftraege: seq<Auftrag>, i: nat, k: nat, j: nat)
    requires i < k <= |auftraege|
    ensures Anzahl(auftraege[..i], j) + (if auftraege[i].von == j then 1 else 0) <= Anzahl(auftraege[..k], j)
    ensures 0 <= Anzahl(auftraege[..i], j) && Anzahl(auftraege[..k], j) <= k
    decreases i
  {
    var kurz, lang, rest := auftraege[..i], auftraege[..k], auftraege[1..];
    assert lang[1..] == rest[..k - 1];
    AnzahlSchranke(lang[1..], j);
    if i > 0 {
      assert kurz[1..] == rest[..i - 1];
      AnzahlDavor(rest, i - 1, k - 1, j);
    }
  }

  lemma {:induction false} AnzahlSchranke(auftraege: seq<Auftrag>, j: nat)
    ensures 0 <= Anzahl(auftraege, j) <= |auftraege|
  {
    if auftraege != [] { AnzahlSchranke(auftraege[1..], j); }
  }

  /** In one bundle no two orders are signed over the same, so no signature authenticates two. */
  lemma JedeNachrichtEinmal(ks: seq<Konto>, txs: seq<TxZeuge>, i: nat, k: nat)
    requires i < k < |txs| <= P && txs[i].vonIndex < |ks| && txs[k].vonIndex < |ks|
    ensures Signiert(ks, txs, i) != Signiert(ks, txs, k)
  {
    var j := txs[i].vonIndex;
    if txs[k].vonIndex == j {
      var alle := AuftraegeVon(txs);
      assert alle[..i] == AuftraegeVon(txs[..i]) && alle[..k] == AuftraegeVon(txs[..k]);
      AnzahlDavor(alle, i, k, j);
      var x, y := Folgenonce(ks, alle[..i], j), Folgenonce(ks, alle[..k], j);
      assert 0 < y - x < P;
      RestVerschieden(x, y, P);
      assert Signiert(ks, txs, i)[3] == x % P && Signiert(ks, txs, k)[3] == y % P;
    } else {
      assert Signiert(ks, txs, i)[0] != Signiert(ks, txs, k)[0];
    }
  }

  lemma RestVerschieden(x: int, y: int, m: int)
    requires 0 < y - x < m
    ensures x % m != y % m
  {
    if x % m == y % m { RestGleich(y, x, -x, m); }
  }

  // ---- what the program takes and signs -----------------------------------------------------------

  /** The balance account j has after the orders in the program's 64 bits. */
  /** The program takes order i: two different accounts, and the sender holds the amount by then. */
  predicate Angenommen(ks: seq<Konto>, auftraege: seq<Auftrag>, i: nat)
    requires i < |auftraege| && AlleLesbar(ks, auftraege)
  {
    var a := auftraege[i];
    a.von != a.an && a.betrag <= Stand(ks, auftraege[..i], a.von) % ZWEI64
  }

  lemma EinsGebucht(ks: seq<Konto>, auftraege: seq<Auftrag>, j: nat)
    requires auftraege != [] && Alle64(ks) && AlleLesbar(ks, auftraege) && Annehmbar(ks, auftraege[0]) && j < |ks|
    ensures var ks' := Gebucht(ks, auftraege[0]);
      && ks'[j].x == ks[j].x && ks'[j].y == ks[j].y
      && Stand(ks', auftraege[1..], j) % ZWEI64 == Stand(ks, auftraege, j) % ZWEI64
      && Folgenonce(ks', auftraege[1..], j) % ZWEI64 == Folgenonce(ks, auftraege, j) % ZWEI64
  {
    var a, rest, ks' := auftraege[0], auftraege[1..], Gebucht(ks, auftraege[0]);
    RestGleich(ks'[j].nonce, ks[j].nonce + if a.von == j then 1 else 0, Anzahl(rest, j), ZWEI64);
    RestGleich(ks'[j].guthaben,
               ks[j].guthaben + (if a.an == j then a.betrag else 0) - (if a.von == j then a.betrag else 0),
               Zugang(rest, j) - Abgang(rest, j), ZWEI64);
  }

  /** The bundle of accepted orders: what state it leaves and what its witnesses say. */
  predicate Gebuendelt(c: Krypto, s: Signierer, ks: seq<Konto>, auftraege: seq<Auftrag>, ende: seq<Konto>,
                       txs: seq<TxZeuge>)
    requires AlleLesbar(ks, auftraege)
  {
    && |ende| == |ks| && |txs| == |auftraege|
    && (forall j :: 0 <= j < |ks| ==> KontoNach(ks, auftraege, ende, j))
    && (forall i :: 0 <= i < |txs| ==> TxNach(c, s, ks, auftraege, txs, i))
  }

  predicate KontoNach(ks: seq<Konto>, auftraege: seq<Auftrag>, ende: seq<Konto>, j: nat)
    requires j < |ks| == |ende|
  {
    && ende[j].x == ks[j].x && ende[j].y == ks[j].y
    && ende[j].guthaben == Stand(ks, auftraege, j) % ZWEI64
    && ende[j].nonce == Folgenonce(ks, auftraege, j) % ZWEI64
  }

  /** Witness i names the order and carries the sender's signature over it and the nonce of that moment. */
  predicate TxNach(c: Krypto, s: Signierer, ks: seq<Konto>, auftraege: seq<Auftrag>, txs: seq<TxZeuge>, i: nat)
    requires i < |txs| == |auftraege| && AlleLesbar(ks, auftraege)
  {
    var a, tx, nonce := auftraege[i], txs[i], Folgenonce(ks, auftraege[..i], auftraege[i].von) % ZWEI64;
    && tx.vonIndex == a.von && tx.anIndex == a.an && tx.betrag == a.betrag
    && a.von < P && a.an < P && nonce < P && a.betrag < P
    && tx.sig == s(ks[a.von].x, ks[a.von].y, c.mimc([a.von, a.an, a.betrag, nonce]))
  }

  /** The first order decides itself; the others are decided on the state it leaves. */
  lemma AngenommenEins(ks: seq<Konto>, auftraege: seq<Auftrag>, i: nat)
    requires Alle64(ks) && AlleLesbar(ks, auftraege) && auftraege != []
    ensures Angenommen(ks, auftraege, 0) <==> Annehmbar(ks, auftraege[0])
    ensures Annehmbar(ks, auftraege[0]) && 0 < i < |auftraege| ==>
      (Angenommen(ks, auftraege, i) <==> Angenommen(Gebucht(ks, auftraege[0]), auftraege[1..], i - 1))
  {
    assert auftraege[..0] == [];
    if Annehmbar(ks, auftraege[0]) && 0 < i < |auftraege| {
      hide Stand, Gebucht;
      var davor := auftraege[..i];
      assert davor[0] == auftraege[0] && davor[1..] == auftraege[1..][..i - 1];
      EinsGebucht(ks, davor, auftraege[i].von);
    }
  }

  /** A bundle is made exactly if the program takes each of its orders; else it stops at the first it
      does not take, with the state as the orders before that left it. */
  lemma {:induction false} BuendelAngenommenGenau(c: Krypto, s: Signierer, ks: seq<Konto>, auftraege: seq<Auftrag>,
                                                  t: nat)
    returns (n: nat)
    requires |ks| == Zwei(t) <= P && Alle64(ks) && AlleLesbar(ks, auftraege)
    ensures Buendeln(c, s, ks, auftraege, t).1.Some?
      <==> forall i :: 0 <= i < |auftraege| ==> Angenommen(ks, auftraege, i)
    ensures n <= |auftraege| && (n == |auftraege| <==> Buendeln(c, s, ks, auftraege, t).1.Some?)
    ensures n < |auftraege| ==> !Angenommen(ks, auftraege, n)
    ensures forall i :: 0 <= i < n ==> Angenommen(ks, auftraege, i)
    ensures Buendeln(c, s, ks, auftraege, t).0 == Buendeln(c, s, ks, auftraege[..n], t).0
    ensures Buendeln(c, s, ks, auftraege[..n], t).1.Some?
    decreases |auftraege|
  {
    hide Angenommen, Annehmbar, Gebucht, Zeuge, Zwei, In64;
    n := 0;
    if auftraege != [] {
      AngenommenEins(ks, auftraege, 0);
      if Annehmbar(ks, auftraege[0]) {
        var ks', rest := Gebucht(ks, auftraege[0]), auftraege[1..];
        var k := BuendelAngenommenGenau(c, s, ks', rest, t);
        n := k + 1;
        assert auftraege[..n][0] == auftraege[0] && auftraege[..n][1..] == rest[..k];
        forall i | 0 < i < |auftraege|
          ensures Angenommen(ks, auftraege, i) <==> Angenommen(ks', rest, i - 1)
        {
          AngenommenEins(ks, auftraege, i);
        }
        if n < |auftraege| { assert !Angenommen(ks, auftraege, n); }
        forall i | 0 <= i < n ensures Angenommen(ks, auftraege, i) {
          if i > 0 { assert Angenommen(ks', rest, i - 1); }
        }
      } else {
        assert auftraege[..0] == [];
      }
    } else {
      assert auftraege[..0] == [];
    }
  }

  /** What such a bundle leaves and says, on fields. */
  lemma {:induction false} BuendelGebucht(c: Krypto, s: Signierer, ks: seq<Konto>, auftraege: seq<Auftrag>, t: nat)
    requires |ks| == Zwei(t) <= P && Alle64(ks) && AlleLesbar(ks, auftraege)
    requires Buendeln(c, s, ks, auftraege, t).1.Some?
    ensures var (ende, txs) := Buendeln(c, s, ks, auftraege, t); Gebuendelt(c, s, ks, auftraege, ende, txs.wert)
    decreases |auftraege|
  {
    hide Zwei, Gebucht, Zeuge, TxNach, KontoNach;
    var (ende, ganz) := Buendeln(c, s, ks, auftraege, t);
    var txs := ganz.wert;
    if auftraege == [] {
      forall j | 0 <= j < |ks| ensures KontoNach(ks, auftraege, ende, j) { NichtsGebucht(ks, j); }
    } else {
      var a, rest, ks' := auftraege[0], auftraege[1..], Gebucht(ks, auftraege[0]);
      BuendelGebucht(c, s, ks', rest, t);
      assert txs[0] == Zeuge(c, s, ks, a, t) && txs[1..] == Buendeln(c, s, ks', rest, t).1.wert;
      forall j | 0 <= j < |ks| ensures KontoNach(ks, auftraege, ende, j) {
        assert KontoNach(ks', rest, ende, j);
        KontoEins(ks, auftraege, ende, j);
      }
      forall i | 0 <= i < |txs| ensures TxNach(c, s, ks, auftraege, txs, i) {
        if i > 0 { assert TxNach(c, s, ks', rest, txs[1..], i - 1); }
        TxEins(c, s, ks, auftraege, txs, i, t);
      }
    }
  }

  lemma NichtsGebucht(ks: seq<Konto>, j: nat)
    requires Alle64(ks) && j < |ks|
    ensures KontoNach(ks, [], ks, j)
  {
  }

  lemma KontoEins(ks: seq<Konto>, auftraege: seq<Auftrag>, ende: seq<Konto>, j: nat)
    requires auftraege != [] && Alle64(ks) && AlleLesbar(ks, auftraege) && Annehmbar(ks, auftraege[0])
    requires j < |ks| == |ende| && KontoNach(Gebucht(ks, auftraege[0]), auftraege[1..], ende, j)
    ensures KontoNach(ks, auftraege, ende, j)
  {
    hide Gebucht, Stand, Folgenonce;
    EinsGebucht(ks, auftraege, j);
  }

  lemma TxEins(c: Krypto, s: Signierer, ks: seq<Konto>, auftraege: seq<Auftrag>, txs: seq<TxZeuge>, i: nat, t: nat)
    requires |ks| == Zwei(t) <= P && i < |txs| == |auftraege|
    requires Alle64(ks) && AlleLesbar(ks, auftraege) && Annehmbar(ks, auftraege[0])
    requires txs[0] == Zeuge(c, s, ks, auftraege[0], t)
    requires i > 0 ==> TxNach(c, s, Gebucht(ks, auftraege[0]), auftraege[1..], txs[1..], i - 1)
    ensures TxNach(c, s, ks, auftraege, txs, i)
  {
    hide Zwei, Pfad, Blaetter;
    if i == 0 {
      assert auftraege[..0] == [];
    } else {
      hide Gebucht, Stand, Folgenonce;
      var davor := auftraege[..i];
      assert davor[0] == auftraege[0] && davor[1..] == auftraege[1..][..i - 1];
      EinsGebucht(ks, davor, auftraege[i].von);
    }
  }
}
