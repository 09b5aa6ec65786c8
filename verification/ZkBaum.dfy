/**
 The dense Merkle tree under the transfer circuit: field elements, the hash, paths
 and what a path proves.
 */
module ZkBaum {

  /** Order of the scalar field of BN254. */
  const P: int := 21888242871839275222246405745257275088548364400416034343698204186575808495617

  type Feld = x: int | 0 <= x < 21888242871839275222246405745257275088548364400416034343698204186575808495617

  function Plus(x: Feld, y: Feld): Feld { (x + y) % P }

  function Minus(x: Feld, y: Feld): Feld { (x - y) % P }

  datatype Signatur = Signatur(rx: Feld, ry: Feld, s: Feld)

  /** The hash of a list of field elements, and signature checking under a public key. */
  datatype Krypto = Krypto(
    mimc: seq<Feld> -> Feld,
    gueltig: (Feld, Feld, Feld, Signatur) -> bool)

  /** An account: public key, balance, nonce. */
  datatype Konto = Konto(x: Feld, y: Feld, guthaben: Feld, nonce: Feld)

  function BlattUrbild(k: Konto): seq<Feld> { [k.x, k.y, k.guthaben, k.nonce] }

  function Blatt(c: Krypto, k: Konto): Feld { c.mimc(BlattUrbild(k)) }

  function Zwei(n: nat): nat {
    if n == 0 then 1 else 2 * Zwei(n - 1)
  }

  lemma ZweiGerade(n: nat)
    requires n > 0
    ensures Zwei(n) % 2 == 0
  {
  }

  // ---- binary decomposition ------------------------------------------------------------

  /** Value of bits, least significant first. */
  function Bitwert(bits: seq<bool>): nat {
    if bits == [] then 0 else (if bits[0] then 1 else 0) + 2 * Bitwert(bits[1..])
  }

  /** The bits a decomposition constraint of length n accepts for v. */
  ghost predicate Zerlegt(v: Feld, n: nat, bits: seq<bool>) {
    |bits| == n && Bitwert(bits) % P == v
  }

  function Bits(v: nat, n: nat): (bits: seq<bool>)
    ensures |bits| == n
  {
    if n == 0 then [] else [v % 2 == 1] + Bits(v / 2, n - 1)
  }

  lemma {:induction false} BitwertSchranke(bits: seq<bool>)
    ensures Bitwert(bits) < Zwei(|bits|) && Bits(Bitwert(bits), |bits|) == bits
  {
    if bits != [] { BitwertSchranke(bits[1..]); }
  }

  lemma {:induction false} BitsBitwert(v: nat, n: nat)
    requires v < Zwei(n)
    ensures Bitwert(Bits(v, n)) == v
  {
    if n > 0 { BitsBitwert(v / 2, n - 1); }
  }

  /** Decomposing into few enough bits is exactly a range check, and the bits are those of the number. */
  lemma ZerlegungGenau(v: Feld, n: nat)
    requires Zwei(n) <= P
    ensures (exists bits :: Zerlegt(v, n, bits)) <==> v < Zwei(n)
    ensures forall bits :: Zerlegt(v, n, bits) ==> bits == Bits(v, n)
  {
    forall bits | Zerlegt(v, n, bits) ensures v < Zwei(n) && bits == Bits(v, n) {
      BitwertSchranke(bits);
    }
    if v < Zwei(n) {
      BitsBitwert(v, n);
      assert Zerlegt(v, n, Bits(v, n));
    }
  }

  // ---- paths -----------------------------------------------------------------------------

  /** The two inputs of a node, given its child at index i and the sibling g. */
  function PaarUrbild(h: Feld, g: Feld, i: nat): seq<Feld> {
    if i % 2 == 1 then [g, h] else [h, g]
  }

  /** The root that a node at index i and the siblings above it lead to. */
  function Hoch(c: Krypto, h: Feld, i: nat, pfad: seq<Feld>): Feld
    decreases |pfad|
  {
    if pfad == [] then h else Hoch(c, c.mimc(PaarUrbild(h, pfad[0], i)), i / 2, pfad[1..])
  }

  /** The inputs of node j of the level above xs. */
  function Kinder(xs: seq<Feld>, j: nat): seq<Feld>
    requires 2 * j + 1 < |xs|
  {
    [xs[2 * j], xs[2 * j + 1]]
  }

  function Eltern(c: Krypto, xs: seq<Feld>, j: nat): Feld
    requires 2 * j + 1 < |xs|
  {
    c.mimc(Kinder(xs, j))
  }

  /** The level above xs. */
  function Darueber(c: Krypto, xs: seq<Feld>): (ys: seq<Feld>)
    ensures |ys| == |xs| / 2
  {
    seq(|xs| / 2, i requires 0 <= i < |xs| / 2 => Eltern(c, xs, i))
  }

  /** The root over 2^n nodes. */
  function Spitze(c: Krypto, xs: seq<Feld>, n: nat): Feld
    requires |xs| == Zwei(n)
    decreases n
  {
    if n == 0 then xs[0] else Spitze(c, Darueber(c, xs), n - 1)
  }

  function Nachbar(i: nat): nat { if i % 2 == 1 then i - 1 else i + 1 }

  /** The siblings above node i, bottom up. */
  function Pfad(c: Krypto, xs: seq<Feld>, i: nat, n: nat): (p: seq<Feld>)
    requires |xs| == Zwei(n) && i < |xs|
    ensures |p| == n
    decreases n
  {
    if n == 0 then [] else [xs[Nachbar(i)]] + Pfad(c, Darueber(c, xs), i / 2, n - 1)
  }

  lemma PfadEins(c: Krypto, xs: seq<Feld>, i: nat, n: nat)
    requires |xs| == Zwei(n) && i < |xs| && n > 0
    ensures i / 2 < |Darueber(c, xs)| == Zwei(n - 1) && Nachbar(i) < |xs|
    ensures Pfad(c, xs, i, n) == [xs[Nachbar(i)]] + Pfad(c, Darueber(c, xs), i / 2, n - 1)
  {
    hide Darueber;
  }

  lemma KinderNach(xs: seq<Feld>, i: nat, h: Feld, j: nat)
    requires i < |xs| && |xs| % 2 == 0 && 2 * j + 1 < |xs|
    ensures Kinder(xs[i := h], j) == if j == i / 2 then PaarUrbild(h, xs[Nachbar(i)], i) else Kinder(xs, j)
  {
  }

  lemma DarueberNach(c: Krypto, xs: seq<Feld>, i: nat, h: Feld)
    requires i < |xs| && |xs| % 2 == 0
    ensures Darueber(c, xs[i := h]) == Darueber(c, xs)[i / 2 := c.mimc(PaarUrbild(h, xs[Nachbar(i)], i))]
  {
    var ys := xs[i := h];
    forall j | 0 <= j < |xs| / 2
      ensures Eltern(c, ys, j) == if j == i / 2 then c.mimc(PaarUrbild(h, xs[Nachbar(i)], i)) else Eltern(c, xs, j)
    {
      KinderNach(xs, i, h, j);
    }
  }

  /** The path of node i with a new node at its foot leads to the root over the changed level. */
  lemma {:induction false} PfadFuehrtHoch(c: Krypto, xs: seq<Feld>, i: nat, h: Feld, n: nat)
    requires |xs| == Zwei(n) && i < |xs|
    ensures Hoch(c, h, i, Pfad(c, xs, i, n)) == Spitze(c, xs[i := h], n)
    decreases n
  {
    hide Kinder, Darueber, PaarUrbild, Pfad;
    if n > 0 {
      DarueberNach(c, xs, i, h);
      PfadFuehrtHoch(c, Darueber(c, xs), i / 2, c.mimc(PaarUrbild(h, xs[Nachbar(i)], i)), n - 1);
      PfadEins(c, xs, i, n);
      assert Pfad(c, xs, i, n)[1..] == Pfad(c, Darueber(c, xs), i / 2, n - 1);
    } else {
      assert Pfad(c, xs, i, n) == [];
    }
  }

  // ---- what a path proves ------------------------------------------------------------------

  ghost predicate Kollisionsfrei(c: Krypto, U: iset<seq<Feld>>) {
    forall x, y :: x in U && y in U && c.mimc(x) == c.mimc(y) ==> x == y
  }

  /** All hash inputs of the levels above xs lie in U. */
  ghost predicate BaumIn(c: Krypto, U: iset<seq<Feld>>, xs: seq<Feld>, n: nat)
    requires |xs| == Zwei(n)
    decreases n
  {
    n > 0 ==> EbeneIn(U, xs) && BaumIn(c, U, Darueber(c, xs), n - 1)
  }

  ghost predicate EbeneIn(U: iset<seq<Feld>>, xs: seq<Feld>) {
    forall j :: 0 <= j < |xs| / 2 ==> Kinder(xs, j) in U
  }

  /** All hash inputs of a walk lie in U. */
  ghost predicate WegIn(c: Krypto, U: iset<seq<Feld>>, h: Feld, i: nat, pfad: seq<Feld>)
    decreases |pfad|
  {
    pfad != [] ==>
      PaarUrbild(h, pfad[0], i) in U && WegIn(c, U, c.mimc(PaarUrbild(h, pfad[0], i)), i / 2, pfad[1..])
  }

  lemma PaarIstKinder(xs: seq<Feld>, h: Feld, g: Feld, i: nat)
    requires i < |xs| && |xs| % 2 == 0 && PaarUrbild(h, g, i) == Kinder(xs, i / 2)
    ensures h == xs[i] && g == xs[Nachbar(i)]
  {
    assert PaarUrbild(h, g, i)[0] == Kinder(xs, i / 2)[0] && PaarUrbild(h, g, i)[1] == Kinder(xs, i / 2)[1];
  }

  /** A walk that reaches the root started from the true node and took the true siblings. */
  lemma {:induction false} PfadBindet(c: Krypto, U: iset<seq<Feld>>, xs: seq<Feld>, n: nat, h: Feld, i: nat,
                                      pfad: seq<Feld>)
    requires |xs| == Zwei(n) && i < |xs| && |pfad| == n
    requires Kollisionsfrei(c, U) && BaumIn(c, U, xs, n) && WegIn(c, U, h, i, pfad)
    requires Hoch(c, h, i, pfad) == Spitze(c, xs, n)
    ensures h == xs[i] && pfad == Pfad(c, xs, i, n)
    decreases n
  {
    hide Kinder, PaarUrbild;
    if n > 0 {
      var u := PaarUrbild(h, pfad[0], i);
      PfadBindet(c, U, Darueber(c, xs), n - 1, c.mimc(u), i / 2, pfad[1..]);
      assert c.mimc(u) == Darueber(c, xs)[i / 2] == c.mimc(Kinder(xs, i / 2));
      assert Kinder(xs, i / 2) in U;
      PaarIstKinder(xs, h, pfad[0], i);
      assert pfad == [pfad[0]] + pfad[1..];
    } else {
      assert pfad == [];
    }
  }

  /** A walk from a new foot adds its own inputs to those of the tree. */
  lemma {:induction false} BaumInNach(c: Krypto, U: iset<seq<Feld>>, xs: seq<Feld>, n: nat, h: Feld, i: nat)
    requires |xs| == Zwei(n) && i < |xs|
    requires BaumIn(c, U, xs, n) && WegIn(c, U, h, i, Pfad(c, xs, i, n))
    ensures BaumIn(c, U, xs[i := h], n)
    decreases n
  {
    hide Kinder, PaarUrbild, Darueber;
    if n > 0 {
      var u := PaarUrbild(h, xs[Nachbar(i)], i);
      var p := Pfad(c, xs, i, n);
      assert p[0] == xs[Nachbar(i)] && p[1..] == Pfad(c, Darueber(c, xs), i / 2, n - 1);
      DarueberNach(c, xs, i, h);
      BaumInNach(c, U, Darueber(c, xs), n - 1, c.mimc(u), i / 2);
      var ys := xs[i := h];
      forall j | 0 <= j < |xs| / 2 ensures Kinder(ys, j) in U { KinderNach(xs, i, h, j); }
    }
  }

  /** Equal roots mean equal levels. */
  lemma {:induction false} WurzelBindet(c: Krypto, U: iset<seq<Feld>>, xs: seq<Feld>, ys: seq<Feld>, n: nat)
    requires |xs| == |ys| == Zwei(n) && Kollisionsfrei(c, U) && BaumIn(c, U, xs, n) && BaumIn(c, U, ys, n)
    requires Spitze(c, xs, n) == Spitze(c, ys, n)
    ensures xs == ys
    decreases n
  {
    hide Kinder;
    if n > 0 {
      WurzelBindet(c, U, Darueber(c, xs), Darueber(c, ys), n - 1);
      forall k | 0 <= k < |xs| ensures xs[k] == ys[k] {
        assert Darueber(c, xs)[k / 2] == Darueber(c, ys)[k / 2];
        assert Kinder(xs, k / 2) in U && Kinder(ys, k / 2) in U;
        KinderGleich(xs, ys, k);
      }
    } else {
      assert xs == [xs[0]] && ys == [ys[0]];
    }
  }

  lemma KinderGleich(xs: seq<Feld>, ys: seq<Feld>, k: nat)
    requires |xs| == |ys| && |xs| % 2 == 0 && k < |xs| && Kinder(xs, k / 2) == Kinder(ys, k / 2)
    ensures xs[k] == ys[k]
  {
    assert Kinder(xs, k / 2)[k % 2] == Kinder(ys, k / 2)[k % 2];
  }
}
