/**
 The values that shards, blocks and proofs are made of, and the machine
 arithmetic they are computed with.

 Hashes are 32-byte values, seen as bit sequences. SHA-256, the shard assignment and
 signature checking are parameters of the model (`Welt`); theorems that rely on
 collision freedom say for which finite or infinite set of hash inputs they need it.
 */
module Typen {
  // ---- machine integers ----------------------------------------------------

  const ZWEI63: int := 0x8000_0000_0000_0000
  const ZWEI64: int := 0x1_0000_0000_0000_0000

  type Int64 = x: int | -0x8000_0000_0000_0000 <= x < 0x8000_0000_0000_0000
  type UInt64 = x: int | 0 <= x < 0x1_0000_0000_0000_0000

  /** The int64 that a sum or product computed by the machine holds. */
  function Wrap(x: int): (r: Int64)
    ensures -ZWEI63 <= x < ZWEI63 ==> r == x
    ensures (x - r) % ZWEI64 == 0
  {
    (x + ZWEI63) % ZWEI64 - ZWEI63
  }

  /** Division that truncates toward zero. */
  function Quo(x: int, y: int): (q: int)
    requires y > 0
    ensures 0 <= x ==> q == x / y && 0 <= q <= x
    ensures x < 0 ==> q == -((-x) / y) && x <= q <= 0
  {
    QuotientSchranke(if x < 0 then -x else x, y);
    if x < 0 then -((-x) / y) else x / y
  }

  lemma QuotientSchranke(x: nat, y: nat)
    requires y > 0
    ensures 0 <= x / y <= x
  {
    var q := x / y;
    assert x == y * q + x % y;
    Produkt(y - 1, q);
    assert y * q == (y - 1) * q + q;
  }

  lemma Produkt(a: nat, b: nat)
    ensures 0 <= a * b
  {
  }

  // ---- hashes --------------------------------------------------------------

  /** Bits of a hash value, and depth of the tree keyed by hashes. The program uses
      256; nothing depends on the number, so it is left open here. */
  const TIEFE: nat

  type Hash = h: seq<bool> | |h| == TIEFE witness seq(TIEFE, _ => false)

  /** The all-zero value, the hash of every empty leaf and empty subtree. */
  function Nullen(n: nat): (z: seq<bool>)
    ensures |z| == n
  {
    seq(n, _ => false)
  }

  const NULL: Hash := Nullen(TIEFE)

  /** Everything the program hashes. One constructor per tagged preimage. */
  datatype Urbild =
    | KnotenU(links: Hash, rechts: Hash)
    | KontoU(addr: string, konto: Konto)
    | KontoSchluesselU(addr: string)
    | QuittungSchluesselU(id: Hash)
    | VerbrauchtU
    | QuittungU(block: Hash, index: nat)
    | BlockU(bereich: int, epoche: UInt64, nr: UInt64, vor: Hash, eingabenHash: Hash)
    | EingabenU(eingaben: Eingaben)
    | KopfU(id: Hash, nach: Hash, rahmen: Rahmen, ausgangHash: Hash, teilsumme: Teilsumme,
            geldmenge: Int64, menschen: int)
    | AusgangU(ausgang: seq<Quittung>)
    | SammelU(sammel: Sammelblock)
    | ZufallU(sammelHash: Hash, epoche: UInt64)
    | AusschussU(zufall: Hash)
    | PruefausschussU(zufall: Hash, bereich: int)
    | ZugU(seed: Hash, n: UInt64)

  /** The primitives the ledger is built on. */
  datatype Welt = Welt(
    sha: Urbild -> Hash,
    bereichVon: (string, int) -> int,
    signiert: Ueberweisung -> bool,
    bestaetigt: (string, Nachricht, seq<int>) -> bool)

  /** What committee members sign: the head of a block, marked when checking an exit. */
  datatype Nachricht = Nachricht(pruef: bool, kopf: Hash)

  /** On U the hash function has no collisions and never yields the null hash. */
  ghost predicate Sicher(w: Welt, U: iset<Urbild>) {
    && (forall x, y :: x in U && y in U && w.sha(x) == w.sha(y) ==> x == y)
    && (forall x :: x in U ==> w.sha(x) != NULL)
  }

  // ---- accounts, orders, receipts ------------------------------------------

  /** geStand: how far this account's basic income has been paid out. */
  datatype Konto = Konto(guthaben: Int64, mensch: bool, nonce: UInt64, geStand: Int64)

  const LEERES_KONTO := Konto(0, false, 0, 0)

  datatype Ueberweisung = Ueberweisung(
    von: string, an: string, betrag: Int64, nonce: UInt64, ausstieg: bool, sig: seq<int>)

  /** A transfer into another shard: debited at the source, credited once at the target. */
  datatype Quittung = Quittung(id: Hash, vonBereich: int, nachBereich: int, an: string, betrag: Int64)

  datatype Eingaben = Eingaben(
    eingang: seq<Quittung>, registrierung: seq<string>, ueberweisungen: seq<Ueberweisung>)

  datatype Rahmen = Rahmen(s: int, geKumuliert: Int64, grenze: Int64)

  datatype Teilsumme = Teilsumme(
    eingang: Int64, ausgang: Int64, gebuehren: Int64, geAusgezahlt: Int64,
    geschoepft: Int64, ausstiege: Int64, neueMenschen: int)

  const NULLSUMME := Teilsumme(0, 0, 0, 0, 0, 0, 0)

  datatype BereichsBlock = BereichsBlock(
    bereich: int, epoche: UInt64, nr: UInt64, vor: Hash, nach: Hash, rahmen: Rahmen,
    eingaben: Eingaben, ausgang: seq<Quittung>, teilsumme: Teilsumme,
    geldmenge: Int64, menschen: int, sig: map<string, seq<int>>, pruefSig: map<string, seq<int>>)

  /** The epoch block: network-wide totals since the beginning. */
  datatype Sammelblock = Sammelblock(
    epoche: UInt64, vorher: Hash, koepfe: seq<Hash>, geldmenge: Int64, menschen: int,
    offeneQuittung: Int64, topf: Int64, neuFuerGE: Int64, geJeMensch: Int64,
    geKumuliert: Int64, grenze: Int64, geschoepft: Int64, ausgestiegen: Int64)

  datatype Option<+T> = None | Some(wert: T)

  lemma {:induction false} Teilmenge<T>(a: set<T>, b: set<T>)
    requires a <= b
    ensures |a| <= |b|
  {
    if x :| x in a { Teilmenge(a - {x}, b - {x}); }
  }

  lemma Klammern<T>(a: seq<T>, b: seq<T>, c: seq<T>)
    ensures a + b + c == a + (b + c)
  {
  }

  /** No element stands twice. */
  predicate Verschieden<T(==)>(s: seq<T>) { forall i, j :: 0 <= i < j < |s| ==> s[i] != s[j] }
}
