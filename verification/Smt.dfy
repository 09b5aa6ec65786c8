/**
 The sparse Merkle tree: contents, stored nodes, compressed proofs and the
 partial tree rebuilt from proofs, as values.

 A node is addressed by the prefix of the keys below it; a prefix of length
 TIEFE - h is the source's pair (h, key with the low h bits cleared).
 */
module Smt {
  import opened Typen

  type Praefix = seq<bool>

  function Knoten(w: Welt, l: Hash, r: Hash): Hash {
    if l == NULL && r == NULL then NULL else w.sha(KnotenU(l, r))
  }

  /** Root of an empty subtree of height d: the source's table `leer`. */
  function Leer(w: Welt, d: nat): Hash {
    if d == 0 then NULL else Knoten(w, Leer(w, d - 1), Leer(w, d - 1))
  }

  lemma {:induction false} LeerIstNull(w: Welt, d: nat)
    ensures Leer(w, d) == NULL
  {
    if d > 0 { LeerIstNull(w, d - 1); }
  }

  // ---- the tree as stored ---------------------------------------------------

  datatype Baum = Baum(werte: map<Hash, Hash>, innen: map<Praefix, Hash>)

  const LEERER_BAUM := Baum(map[], map[])

  function Wert(werte: map<Hash, Hash>, k: Hash): Hash {
    if k in werte then werte[k] else NULL
  }

  function HashBei(innen: map<Praefix, Hash>, p: Praefix): Hash {
    if p in innen then innen[p] else NULL
  }

  function Wurzel(b: Baum): Hash { HashBei(b.innen, []) }

  /** The node of height `hoehe` above leaf k. */
  function Ast(k: Hash, hoehe: nat): (p: Praefix)
    requires hoehe <= TIEFE
    ensures |p| == TIEFE - hoehe
  {
    k[..TIEFE - hoehe]
  }

  /** The sibling of that node. */
  function Nachbar(k: Hash, hoehe: nat): (p: Praefix)
    requires hoehe < TIEFE
    ensures |p| == TIEFE - hoehe
  {
    k[..TIEFE - 1 - hoehe] + [!k[TIEFE - 1 - hoehe]]
  }

  /** Parent of h, which lies above k at `hoehe`, and its sibling g. */
  function Paar(w: Welt, k: Hash, hoehe: nat, h: Hash, g: Hash): Hash
    requires hoehe < TIEFE
  {
    if k[TIEFE - 1 - hoehe] then Knoten(w, g, h) else Knoten(w, h, g)
  }

  /** One entry written or, if it is the null hash, removed. */
  function Eintragen<K>(m: map<K, Hash>, p: K, h: Hash): map<K, Hash> {
    if h == NULL then m - {p} else m[p := h]
  }

  lemma EintragenWirkung(m: map<Praefix, Hash>, p: Praefix, h: Hash, q: Praefix)
    ensures HashBei(Eintragen(m, p, h), q) == if q == p then h else HashBei(m, q)
  {
  }

  /** Walk up to the root from `rest` levels below it, where the node above k is now h. */
  function Aufstieg(w: Welt, innen: map<Praefix, Hash>, k: Hash, h: Hash, rest: nat): map<Praefix, Hash>
    requires rest <= TIEFE
    decreases rest
  {
    var hoehe := TIEFE - rest;
    var neu := Eintragen(innen, Ast(k, hoehe), h);
    if rest == 0 then neu
    else Aufstieg(w, neu, k, Paar(w, k, hoehe, h, HashBei(neu, Nachbar(k, hoehe))), rest - 1)
  }

  function Setze(w: Welt, b: Baum, k: Hash, wert: Hash): Baum {
    Baum(Eintragen(b.werte, k, wert), Aufstieg(w, b.innen, k, wert, TIEFE))
  }

  // ---- proofs ---------------------------------------------------------------

  /** All siblings of a leaf, bottom up. */
  type Geschwister = g: seq<Hash> | |g| == TIEFE witness seq(TIEFE, _ => NULL)

  function GeschwisterVon(innen: map<Praefix, Hash>, k: Hash): Geschwister {
    seq(TIEFE, hoehe requires 0 <= hoehe < TIEFE => HashBei(innen, Nachbar(k, hoehe)))
  }

  /** The node of height `hoehe` above leaf k with value wert, given the siblings. */
  function Steige(w: Welt, k: Hash, wert: Hash, g: Geschwister, hoehe: nat): Hash
    requires hoehe <= TIEFE
  {
    if hoehe == 0 then wert
    else Paar(w, k, hoehe - 1, Steige(w, k, wert, g, hoehe - 1), g[hoehe - 1])
  }

  /** Siblings with the null ones left out and only marked in a bit mask. */
  datatype Beweis = Beweis(nichtleer: Maske, geschw: seq<Hash>)

  type Maske = m: seq<bool> | |m| == TIEFE witness seq(TIEFE, _ => false)

  /** The explicit siblings from `hoehe` on. */
  function Dichte(g: seq<Hash>): seq<Hash> {
    if g == [] then [] else (if g[0] == NULL then [] else [g[0]]) + Dichte(g[1..])
  }

  function Packe(g: Geschwister): Beweis {
    Beweis(seq(TIEFE, i requires 0 <= i < TIEFE => g[i] != NULL), Dichte(g))
  }

  /** Mask and explicit siblings back to all siblings; None if their numbers differ. */
  function Auspacken(maske: seq<bool>, dicht: seq<Hash>): (r: Option<seq<Hash>>)
    ensures r.Some? ==> |r.wert| == |maske|
  {
    if maske == [] then (if dicht == [] then Some([]) else None)
    else if maske[0] then
      if dicht == [] then None
      else match Auspacken(maske[1..], dicht[1..]) case None => None case Some(g) => Some([dicht[0]] + g)
    else match Auspacken(maske[1..], dicht) case None => None case Some(g) => Some([NULL] + g)
  }

  function Entpacke(bw: Beweis): Option<Geschwister> {
    match Auspacken(bw.nichtleer, bw.geschw) case None => None case Some(g) => Some(g)
  }

  function WurzelAus(w: Welt, k: Hash, wert: Hash, bw: Beweis): Option<Hash> {
    match Entpacke(bw) case None => None case Some(g) => Some(Steige(w, k, wert, g, TIEFE))
  }

  function Beweise(b: Baum, k: Hash): Beweis {
    Packe(GeschwisterVon(b.innen, k))
  }

  lemma {:induction false} DichteRundreise(g: seq<Hash>, maske: seq<bool>)
    requires |maske| == |g| && forall i :: 0 <= i < |g| ==> maske[i] == (g[i] != NULL)
    ensures Auspacken(maske, Dichte(g)) == Some(g)
  {
    if g != [] {
      DichteRundreise(g[1..], maske[1..]);
      if g[0] == NULL {
        assert Dichte(g) == Dichte(g[1..]);
      } else {
        assert Dichte(g)[1..] == Dichte(g[1..]);
      }
      assert [g[0]] + g[1..] == g;
    }
  }

  /** Packing loses nothing. */
  lemma PackenRundreise(g: Geschwister)
    ensures Entpacke(Packe(g)) == Some(g)
  {
    DichteRundreise(g, Packe(g).nichtleer);
  }

  function Gesetzt(maske: seq<bool>): nat {
    if maske == [] then 0 else (if maske[0] then 1 else 0) + Gesetzt(maske[1..])
  }

  /** A proof unpacks exactly when it carries one sibling per mask bit, and then,
      if none of them is null, packing restores it. */
  lemma {:induction false} AuspackenGenau(maske: seq<bool>, dicht: seq<Hash>)
    ensures Auspacken(maske, dicht).Some? <==> Gesetzt(maske) == |dicht|
    ensures Auspacken(maske, dicht).Some? && NULL !in dicht ==>
      var g := Auspacken(maske, dicht).wert;
      Dichte(g) == dicht && forall i :: 0 <= i < |maske| ==> maske[i] == (g[i] != NULL)
  {
    if maske != [] {
      if maske[0] {
        if dicht != [] {
          AuspackenGenau(maske[1..], dicht[1..]);
          if Auspacken(maske, dicht).Some? {
            var g := Auspacken(maske, dicht).wert;
            assert g[1..] == Auspacken(maske[1..], dicht[1..]).wert;
            assert forall i :: 0 < i < |maske| ==> maske[i] == maske[1..][i - 1] && g[i] == g[1..][i - 1];
          }
        }
      } else {
        AuspackenGenau(maske[1..], dicht);
        if Auspacken(maske, dicht).Some? {
          var g := Auspacken(maske, dicht).wert;
          assert g[1..] == Auspacken(maske[1..], dicht).wert;
          assert forall i :: 0 < i < |maske| ==> maske[i] == maske[1..][i - 1] && g[i] == g[1..][i - 1];
        }
      }
    }
  }

  lemma EntpackenGenau(bw: Beweis)
    ensures Entpacke(bw).Some? <==> Gesetzt(bw.nichtleer) == |bw.geschw|
    ensures Entpacke(bw).Some? && NULL !in bw.geschw ==> Packe(Entpacke(bw).wert) == bw
  {
    AuspackenGenau(bw.nichtleer, bw.geschw);
  }

  // ---- what the tree means ---------------------------------------------------

  /** The Merkle hash of all leaves under p, by definition. */
  function Merkle(w: Welt, werte: map<Hash, Hash>, p: Praefix): Hash
    requires |p| <= TIEFE
    decreases TIEFE - |p|
  {
    if |p| == TIEFE then Wert(werte, p)
    else Knoten(w, Merkle(w, werte, p + [false]), Merkle(w, werte, p + [true]))
  }

  ghost predicate Sauber(innen: map<Praefix, Hash>) {
    forall p :: p in innen ==> |p| <= TIEFE && innen[p] != NULL
  }

  /** Every stored node is the Merkle hash of the leaves below it, and nothing null is stored. */
  ghost predicate Kanonisch(w: Welt, b: Baum) {
    && Sauber(b.innen)
    && (forall k :: k in b.werte ==> b.werte[k] != NULL)
    && Getreu(w, b)
  }

  ghost predicate Getreu(w: Welt, b: Baum) {
    forall p: Praefix {:trigger HashBei(b.innen, p)} :: |p| <= TIEFE ==> HashBei(b.innen, p) == Merkle(w, b.werte, p)
  }

  lemma {:induction false} MerkleEinesLeeren(w: Welt, p: Praefix)
    requires |p| <= TIEFE
    ensures Merkle(w, map[], p) == NULL
    decreases TIEFE - |p|
  {
    if |p| < TIEFE {
      MerkleEinesLeeren(w, p + [false]);
      MerkleEinesLeeren(w, p + [true]);
    }
  }

  lemma LeererBaumKanonisch(w: Welt)
    ensures Kanonisch(w, LEERER_BAUM) && Wurzel(LEERER_BAUM) == NULL
  {
    forall p: Praefix | |p| <= TIEFE ensures Merkle(w, map[], p) == NULL { MerkleEinesLeeren(w, p); }
  }

  /** Node q lies above (or is) leaf k. */
  predicate Ueber(q: Praefix, k: Hash) { |q| <= TIEFE && k[..|q|] == q }

  lemma AstNichtNachbar(k: Hash, d: nat, i: nat)
    requires d <= TIEFE && i < TIEFE
    ensures Ast(k, d) != Nachbar(k, i)
  {
    if d == i { assert Ast(k, d)[TIEFE - 1 - d] != Nachbar(k, i)[TIEFE - 1 - d]; }
  }

  lemma NachbarNichtUeber(k: Hash, hoehe: nat)
    requires hoehe < TIEFE
    ensures !Ueber(Nachbar(k, hoehe), k)
  {
    assert Nachbar(k, hoehe)[TIEFE - 1 - hoehe] != k[..TIEFE - hoehe][TIEFE - 1 - hoehe];
  }

  /** A walk leaves nodes off its path, and below its start, untouched. */
  lemma {:induction false} AufstiegFern(w: Welt, m: map<Praefix, Hash>, k: Hash, h: Hash, rest: nat, q: Praefix)
    requires rest <= TIEFE
    requires !Ueber(q, k) || |q| > rest
    ensures HashBei(Aufstieg(w, m, k, h, rest), q) == HashBei(m, q)
    decreases rest
  {
    var hoehe := TIEFE - rest;
    var neu := Eintragen(m, Ast(k, hoehe), h);
    EintragenWirkung(m, Ast(k, hoehe), h, q);
    if rest > 0 {
      AufstiegFern(w, neu, k, Paar(w, k, hoehe, h, HashBei(neu, Nachbar(k, hoehe))), rest - 1, q);
    }
  }

  /** At its start it leaves h ... */
  lemma AufstiegStart(w: Welt, m: map<Praefix, Hash>, k: Hash, h: Hash, rest: nat)
    requires rest <= TIEFE
    ensures HashBei(Aufstieg(w, m, k, h, rest), Ast(k, TIEFE - rest)) == h
  {
    var d := TIEFE - rest;
    var neu := Eintragen(m, Ast(k, d), h);
    EintragenWirkung(m, Ast(k, d), h, Ast(k, d));
    if rest > 0 {
      AufstiegFern(w, neu, k, Paar(w, k, d, h, HashBei(neu, Nachbar(k, d))), rest - 1, Ast(k, d));
    }
  }

  /** ... and every node further up is made of the one below and the old sibling. */
  lemma {:induction false} AufstiegStufe(w: Welt, m: map<Praefix, Hash>, k: Hash, h: Hash, rest: nat, hoehe: nat)
    requires rest <= TIEFE && TIEFE - rest <= hoehe < TIEFE
    ensures var r := Aufstieg(w, m, k, h, rest);
      HashBei(r, Ast(k, hoehe + 1)) == Paar(w, k, hoehe, HashBei(r, Ast(k, hoehe)), HashBei(m, Nachbar(k, hoehe)))
    decreases rest
  {
    var d := TIEFE - rest;
    var neu := Eintragen(m, Ast(k, d), h);
    AstNichtNachbar(k, d, hoehe);
    EintragenWirkung(m, Ast(k, d), h, Nachbar(k, hoehe));
    var h' := Paar(w, k, d, h, HashBei(neu, Nachbar(k, d)));
    if hoehe == d {
      AufstiegStart(w, m, k, h, rest);
      AufstiegStart(w, neu, k, h', rest - 1);
    } else {
      AufstiegStufe(w, neu, k, h', rest - 1, hoehe);
    }
  }

  lemma {:induction false} SetzePfad(w: Welt, b: Baum, k: Hash, wert: Hash, hoehe: nat)
    requires hoehe <= TIEFE
    ensures HashBei(Setze(w, b, k, wert).innen, Ast(k, hoehe)) == Steige(w, k, wert, GeschwisterVon(b.innen, k), hoehe)
  {
    if hoehe == 0 {
      AufstiegStart(w, b.innen, k, wert, TIEFE);
    } else {
      SetzePfad(w, b, k, wert, hoehe - 1);
      AufstiegStufe(w, b.innen, k, wert, TIEFE, hoehe - 1);
    }
  }

  /** What a leaf write leaves behind: the path of k recomputed from its siblings, everything else untouched. */
  lemma SetzeWirkung(w: Welt, b: Baum, k: Hash, wert: Hash, q: Praefix)
    ensures HashBei(Setze(w, b, k, wert).innen, q) ==
      if Ueber(q, k) then Steige(w, k, wert, GeschwisterVon(b.innen, k), TIEFE - |q|)
      else HashBei(b.innen, q)
  {
    if Ueber(q, k) {
      SetzePfad(w, b, k, wert, TIEFE - |q|);
    } else {
      AufstiegFern(w, b.innen, k, wert, TIEFE, q);
    }
  }

  lemma SetzeWert(w: Welt, b: Baum, k: Hash, wert: Hash, k': Hash)
    ensures Wert(Setze(w, b, k, wert).werte, k') == if k' == k then wert else Wert(b.werte, k')
  {
  }

  /** Only nodes at proper heights are stored, and none of them is null. */
  lemma {:induction false} AufstiegSauber(w: Welt, m: map<Praefix, Hash>, k: Hash, h: Hash, rest: nat)
    requires rest <= TIEFE
    requires Sauber(m)
    ensures Sauber(Aufstieg(w, m, k, h, rest))
    decreases rest
  {
    var hoehe := TIEFE - rest;
    var neu := Eintragen(m, Ast(k, hoehe), h);
    if rest > 0 {
      AufstiegSauber(w, neu, k, Paar(w, k, hoehe, h, HashBei(neu, Nachbar(k, hoehe))), rest - 1);
    }
  }

  /** Merkle hashes of the siblings of k. */
  ghost function MerkleGeschwister(w: Welt, werte: map<Hash, Hash>, k: Hash): Geschwister {
    seq(TIEFE, hoehe requires 0 <= hoehe < TIEFE => Merkle(w, werte, Nachbar(k, hoehe)))
  }

  lemma KindNichtUeber(q: Praefix, k: Hash, bit: bool)
    requires |q| < TIEFE && !Ueber(q, k)
    ensures !Ueber(q + [bit], k)
  {
    var i :| 0 <= i < |q| && q[i] != k[i];
    assert (q + [bit])[i] != k[..|q| + 1][i];
  }

  lemma {:induction false} MerkleUnberuehrt(w: Welt, werte: map<Hash, Hash>, k: Hash, wert: Hash, q: Praefix)
    requires |q| <= TIEFE && !Ueber(q, k)
    ensures Merkle(w, Eintragen(werte, k, wert), q) == Merkle(w, werte, q)
    decreases TIEFE - |q|
  {
    if |q| < TIEFE {
      KindNichtUeber(q, k, false);
      KindNichtUeber(q, k, true);
      MerkleUnberuehrt(w, werte, k, wert, q + [false]);
      MerkleUnberuehrt(w, werte, k, wert, q + [true]);
    }
  }

  /** The Merkle hash above k is the walk up from its leaf. */
  lemma {:induction false} MerkleSteigt(w: Welt, werte: map<Hash, Hash>, k: Hash, hoehe: nat)
    requires hoehe <= TIEFE
    ensures Merkle(w, werte, Ast(k, hoehe)) == Steige(w, k, Wert(werte, k), MerkleGeschwister(w, werte, k), hoehe)
  {
    if hoehe == 0 {
      assert Ast(k, 0) == k;
    } else {
      MerkleSteigt(w, werte, k, hoehe - 1);
      var p := Ast(k, hoehe);
      assert p + [k[TIEFE - hoehe]] == Ast(k, hoehe - 1);
      assert p + [!k[TIEFE - hoehe]] == Nachbar(k, hoehe - 1);
    }
  }

  /** A leaf write does not reach the siblings of its path. */
  lemma GeschwisterBleiben(w: Welt, b: Baum, k: Hash, wert: Hash)
    requires Kanonisch(w, b)
    ensures MerkleGeschwister(w, Eintragen(b.werte, k, wert), k) == GeschwisterVon(b.innen, k)
  {
    var g, g' := MerkleGeschwister(w, Eintragen(b.werte, k, wert), k), GeschwisterVon(b.innen, k);
    forall d: nat | d < TIEFE ensures g[d] == g'[d] {
      NachbarNichtUeber(k, d);
      MerkleUnberuehrt(w, b.werte, k, wert, Nachbar(k, d));
      assert g'[d] == HashBei(b.innen, Nachbar(k, d));
    }
  }

  lemma SetzeStimmtBei(w: Welt, b: Baum, k: Hash, wert: Hash, p: Praefix)
    requires Kanonisch(w, b) && |p| <= TIEFE
    ensures HashBei(Setze(w, b, k, wert).innen, p) == Merkle(w, Eintragen(b.werte, k, wert), p)
  {
    SetzeWirkung(w, b, k, wert, p);
    if Ueber(p, k) {
      GeschwisterBleiben(w, b, k, wert);
      MerkleSteigt(w, Eintragen(b.werte, k, wert), k, TIEFE - |p|);
    } else {
      MerkleUnberuehrt(w, b.werte, k, wert, p);
      assert HashBei(b.innen, p) == Merkle(w, b.werte, p);
    }
  }

  /** Writing a leaf keeps every stored node equal to the Merkle hash of the new contents. */
  lemma SetzeKanonisch(w: Welt, b: Baum, k: Hash, wert: Hash)
    requires Kanonisch(w, b)
    ensures Kanonisch(w, Setze(w, b, k, wert))
  {
    AufstiegSauber(w, b.innen, k, wert, TIEFE);
    assert Getreu(w, Setze(w, b, k, wert)) by {
      forall p: Praefix | |p| <= TIEFE
        ensures HashBei(Setze(w, b, k, wert).innen, p) == Merkle(w, Eintragen(b.werte, k, wert), p)
      {
        SetzeStimmtBei(w, b, k, wert, p);
      }
    }
  }

  /** A sequence of writes, the last argument pair last. */
  function SetzeAlle(w: Welt, b: Baum, auftraege: seq<(Hash, Hash)>): Baum {
    if auftraege == [] then b
    else var a := auftraege[|auftraege| - 1];
      Setze(w, SetzeAlle(w, b, auftraege[..|auftraege| - 1]), a.0, a.1)
  }

  lemma {:induction false} SetzeAlleKanonisch(w: Welt, b: Baum, auftraege: seq<(Hash, Hash)>)
    requires Kanonisch(w, b)
    ensures Kanonisch(w, SetzeAlle(w, b, auftraege))
  {
    if auftraege != [] {
      var davor := auftraege[..|auftraege| - 1];
      SetzeAlleKanonisch(w, b, davor);
      SetzeKanonisch(w, SetzeAlle(w, b, davor), auftraege[|auftraege| - 1].0, auftraege[|auftraege| - 1].1);
    }
  }

  lemma GleicheTabellen(m: map<Praefix, Hash>, m': map<Praefix, Hash>)
    requires Sauber(m) && Sauber(m')
    requires forall p: Praefix {:trigger HashBei(m, p)} :: |p| <= TIEFE ==> HashBei(m, p) == HashBei(m', p)
    ensures m == m'
  {
    forall p: Praefix ensures p in m <==> p in m'
      ensures p in m && p in m' ==> m[p] == m'[p]
    {
      if |p| <= TIEFE { assert HashBei(m, p) == HashBei(m', p); }
    }
  }

  /** The whole stored tree, root included, depends on the contents alone, not on
      the order in which leaves were written and deleted. */
  lemma GeschichteEgal(w: Welt, einmal: seq<(Hash, Hash)>, anders: seq<(Hash, Hash)>)
    requires SetzeAlle(w, LEERER_BAUM, einmal).werte == SetzeAlle(w, LEERER_BAUM, anders).werte
    ensures SetzeAlle(w, LEERER_BAUM, einmal) == SetzeAlle(w, LEERER_BAUM, anders)
  {
    LeererBaumKanonisch(w);
    SetzeAlleKanonisch(w, LEERER_BAUM, einmal);
    SetzeAlleKanonisch(w, LEERER_BAUM, anders);
    var a, b := SetzeAlle(w, LEERER_BAUM, einmal), SetzeAlle(w, LEERER_BAUM, anders);
    forall p: Praefix | |p| <= TIEFE ensures HashBei(a.innen, p) == HashBei(b.innen, p) {}
    GleicheTabellen(a.innen, b.innen);
  }

  // ---- proofs are complete and binding ---------------------------------------

  /** The proof taken from a tree leads to its root. */
  lemma BeweisFuehrtZurWurzel(w: Welt, b: Baum, k: Hash)
    requires Kanonisch(w, b)
    ensures WurzelAus(w, k, Wert(b.werte, k), Beweise(b, k)) == Some(Wurzel(b))
    ensures Entpacke(Beweise(b, k)) == Some(MerkleGeschwister(w, b.werte, k))
  {
    assert GeschwisterVon(b.innen, k) == MerkleGeschwister(w, b.werte, k);
    PackenRundreise(GeschwisterVon(b.innen, k));
    MerkleSteigt(w, b.werte, k, TIEFE);
    assert Ast(k, TIEFE) == [];
  }

  /** The pair hashed when walking up from leaf k out of height d. */
  function WegPaar(w: Welt, k: Hash, wert: Hash, g: Geschwister, d: nat): (Hash, Hash)
    requires d < TIEFE
  {
    var h := Steige(w, k, wert, g, d);
    if k[TIEFE - 1 - d] then (g[d], h) else (h, g[d])
  }

  /** All hash inputs of the walk lie in U; a pair of nulls is not hashed. */
  ghost predicate WegUrbilder(w: Welt, k: Hash, wert: Hash, g: Geschwister, U: iset<Urbild>) {
    forall d: nat :: d < TIEFE ==> PaarIn(WegPaar(w, k, wert, g, d), U)
  }

  ghost predicate PaarIn(p: (Hash, Hash), U: iset<Urbild>) {
    p == (NULL, NULL) || KnotenU(p.0, p.1) in U
  }

  lemma KnotenBindet(w: Welt, U: iset<Urbild>, p: (Hash, Hash), p': (Hash, Hash))
    requires Sicher(w, U) && PaarIn(p, U) && PaarIn(p', U)
    requires Knoten(w, p.0, p.1) == Knoten(w, p'.0, p'.1)
    ensures p == p'
  {
  }

  /** If two walks from the same key meet at a node, they came from equal nodes and siblings. */
  lemma SchrittBindet(w: Welt, U: iset<Urbild>, k: Hash, d: nat, x: Hash, g: Geschwister, y: Hash, g': Geschwister)
    requires d < TIEFE && Sicher(w, U)
    requires PaarIn(WegPaar(w, k, x, g, d), U) && PaarIn(WegPaar(w, k, y, g', d), U)
    requires Steige(w, k, x, g, d + 1) == Steige(w, k, y, g', d + 1)
    ensures Steige(w, k, x, g, d) == Steige(w, k, y, g', d) && g[d] == g'[d]
  {
    KnotenBindet(w, U, WegPaar(w, k, x, g, d), WegPaar(w, k, y, g', d));
  }

  /** Two walks from the same key that meet at `hoehe` took the same steps. */
  lemma {:induction false} WegBindet(w: Welt, U: iset<Urbild>, k: Hash, hoehe: nat,
                                     x: Hash, g: Geschwister, y: Hash, g': Geschwister)
    requires hoehe <= TIEFE && Sicher(w, U)
    requires WegUrbilder(w, k, x, g, U) && WegUrbilder(w, k, y, g', U)
    requires Steige(w, k, x, g, hoehe) == Steige(w, k, y, g', hoehe)
    ensures x == y && forall d: nat :: d < hoehe ==> g[d] == g'[d]
  {
    hide Steige, WegPaar, PaarIn, WegUrbilder, Sicher;
    if hoehe == 0 {
      FussDesWegs(w, k, x, g);
      FussDesWegs(w, k, y, g');
    } else {
      PaarAmWeg(w, k, x, g, U, hoehe - 1);
      PaarAmWeg(w, k, y, g', U, hoehe - 1);
      SchrittBindet(w, U, k, hoehe - 1, x, g, y, g');
      WegBindet(w, U, k, hoehe - 1, x, g, y, g');
    }
  }

  lemma FussDesWegs(w: Welt, k: Hash, x: Hash, g: Geschwister)
    ensures Steige(w, k, x, g, 0) == x
  {
  }

  lemma PaarAmWeg(w: Welt, k: Hash, x: Hash, g: Geschwister, U: iset<Urbild>, d: nat)
    requires d < TIEFE && WegUrbilder(w, k, x, g, U)
    ensures PaarIn(WegPaar(w, k, x, g, d), U)
  {
  }

  /** All hash inputs of the tree itself. */
  ghost predicate BaumUrbilder(w: Welt, werte: map<Hash, Hash>, U: iset<Urbild>) {
    forall k: Hash :: WegUrbilder(w, k, Wert(werte, k), MerkleGeschwister(w, werte, k), U)
  }

  /** A proof that leads to the root of a tree carries that tree's value and siblings. */
  lemma BeweisBindet(w: Welt, U: iset<Urbild>, b: Baum, k: Hash, wert: Hash, bw: Beweis)
    requires Kanonisch(w, b) && Sicher(w, U) && BaumUrbilder(w, b.werte, U)
    requires Entpacke(bw).Some? && WegUrbilder(w, k, wert, Entpacke(bw).wert, U)
    requires WurzelAus(w, k, wert, bw) == Some(Wurzel(b))
    ensures wert == Wert(b.werte, k) && Entpacke(bw).wert == MerkleGeschwister(w, b.werte, k)
  {
    var g, g' := Entpacke(bw).wert, MerkleGeschwister(w, b.werte, k);
    BeweisFuehrtZurWurzel(w, b, k);
    PackenRundreise(g');
    WegBindet(w, U, k, TIEFE, wert, g, Wert(b.werte, k), g');
    assert g == g';
  }

  // ---- the partial tree -------------------------------------------------------

  /** A leaf claimed under a root. */
  datatype Beleg = Beleg(k: Hash, wert: Hash, bw: Beweis)

  /** Enter the siblings of k that are neither null nor there already. */
  function Nachtragen(innen: map<Praefix, Hash>, k: Hash, g: Geschwister, rest: nat): map<Praefix, Hash>
    requires rest <= TIEFE
    decreases rest
  {
    if rest == 0 then innen
    else
      var p, h := Nachbar(k, TIEFE - rest), g[TIEFE - rest];
      Nachtragen(if p !in innen && h != NULL then innen[p := h] else innen, k, g, rest - 1)
  }

  function Aufbau(w: Welt, wurzel: Hash, t: Baum, belege: seq<Beleg>): Option<Baum>
    decreases |belege|
  {
    if belege == [] then Some(t)
    else
      var b := belege[0];
      if WurzelAus(w, b.k, b.wert, b.bw) != Some(wurzel) then None
      else
        var innen := Nachtragen(t.innen, b.k, Entpacke(b.bw).wert, TIEFE);
        Aufbau(w, wurzel, Setze(w, Baum(t.werte, innen), b.k, b.wert), belege[1..])
  }

  /** The tree that knows only the proven leaves; None if a proof does not fit the root. */
  function TeilbaumAus(w: Welt, wurzel: Hash, belege: seq<Beleg>): Option<Baum> {
    match Aufbau(w, wurzel, LEERER_BAUM, belege)
    case None => None
    case Some(t) => if belege != [] && Wurzel(t) != wurzel then None else Some(t)
  }

  /** t and b agree on leaf k, on every node above it and on all their siblings. */
  ghost predicate StimmtAuf(t: Baum, b: Baum, k: Hash) {
    && Wert(t.werte, k) == Wert(b.werte, k)
    && (forall d: nat :: d <= TIEFE ==> HashBei(t.innen, Ast(k, d)) == HashBei(b.innen, Ast(k, d)))
    && (forall d: nat :: d < TIEFE ==> HashBei(t.innen, Nachbar(k, d)) == HashBei(b.innen, Nachbar(k, d)))
  }

  ghost predicate Stimmt(t: Baum, b: Baum, bewiesen: set<Hash>) {
    forall k :: k in bewiesen ==> StimmtAuf(t, b, k)
  }

  /** Writing one leaf on both sides keeps any agreement, provided they agree on that leaf. */
  lemma SetzeSimuliert(w: Welt, t: Baum, b: Baum, k: Hash, wert: Hash, k': Hash)
    requires StimmtAuf(t, b, k) && StimmtAuf(t, b, k')
    ensures StimmtAuf(Setze(w, t, k, wert), Setze(w, b, k, wert), k')
  {
    assert GeschwisterVon(t.innen, k) == GeschwisterVon(b.innen, k);
    forall d: nat | d <= TIEFE
      ensures HashBei(Setze(w, t, k, wert).innen, Ast(k', d)) == HashBei(Setze(w, b, k, wert).innen, Ast(k', d))
    {
      SetzeWirkung(w, t, k, wert, Ast(k', d));
      SetzeWirkung(w, b, k, wert, Ast(k', d));
    }
    forall d: nat | d < TIEFE
      ensures HashBei(Setze(w, t, k, wert).innen, Nachbar(k', d)) == HashBei(Setze(w, b, k, wert).innen, Nachbar(k', d))
    {
      SetzeWirkung(w, t, k, wert, Nachbar(k', d));
      SetzeWirkung(w, b, k, wert, Nachbar(k', d));
    }
  }

  /** The partial tree holds nothing that the full tree contradicts. */
  ghost predicate Ehrlich(t: map<Praefix, Hash>, b: map<Praefix, Hash>) {
    Sauber(t) && forall q :: q in t ==> t[q] == HashBei(b, q)
  }

  /** r knows whatever t knows of b. */
  ghost predicate Erweitert(r: map<Praefix, Hash>, t: map<Praefix, Hash>, b: map<Praefix, Hash>) {
    forall q: Praefix {:trigger HashBei(r, q)} :: HashBei(t, q) == HashBei(b, q) ==> HashBei(r, q) == HashBei(b, q)
  }

  lemma {:induction false} NachtragenWirkung(t: map<Praefix, Hash>, b: map<Praefix, Hash>, k: Hash, rest: nat)
    requires rest <= TIEFE && Ehrlich(t, b)
    ensures var r := Nachtragen(t, k, GeschwisterVon(b, k), rest);
      Ehrlich(r, b) && Erweitert(r, t, b)
    decreases rest
  {
    if rest > 0 {
      var t' := Nachgetragen(t, b, k, TIEFE - rest);
      NachtragenWirkung(t', b, k, rest - 1);
      var r := Nachtragen(t', k, GeschwisterVon(b, k), rest - 1);
      forall q: Praefix | HashBei(t, q) == HashBei(b, q) ensures HashBei(r, q) == HashBei(b, q) {
        assert HashBei(t', q) == HashBei(b, q);
      }
    }
  }

  /** One sibling entered. */
  ghost function Nachgetragen(t: map<Praefix, Hash>, b: map<Praefix, Hash>, k: Hash, d: nat): (t': map<Praefix, Hash>)
    requires d < TIEFE && Ehrlich(t, b)
    ensures Ehrlich(t', b) && Erweitert(t', t, b) && HashBei(t', Nachbar(k, d)) == HashBei(b, Nachbar(k, d))
  {
    var p, h := Nachbar(k, d), GeschwisterVon(b, k)[d];
    if p !in t && h != NULL then t[p := h] else t
  }

  lemma NachtragenEins(t: map<Praefix, Hash>, b: map<Praefix, Hash>, k: Hash, rest: nat)
    requires 0 < rest <= TIEFE && Ehrlich(t, b)
    ensures Nachtragen(t, k, GeschwisterVon(b, k), rest)
         == Nachtragen(Nachgetragen(t, b, k, TIEFE - rest), k, GeschwisterVon(b, k), rest - 1)
  {
    hide GeschwisterVon, Ehrlich, Erweitert;
  }

  lemma Erweitertes(r: map<Praefix, Hash>, t: map<Praefix, Hash>, b: map<Praefix, Hash>, q: Praefix)
    requires Erweitert(r, t, b) && HashBei(t, q) == HashBei(b, q)
    ensures HashBei(r, q) == HashBei(b, q)
  {
  }

  lemma {:induction false} NachtragenKennt(t: map<Praefix, Hash>, b: map<Praefix, Hash>, k: Hash, rest: nat, d: nat)
    requires TIEFE - rest <= d < TIEFE && rest <= TIEFE && Ehrlich(t, b)
    ensures HashBei(Nachtragen(t, k, GeschwisterVon(b, k), rest), Nachbar(k, d)) == HashBei(b, Nachbar(k, d))
    decreases rest
  {
    hide GeschwisterVon, Erweitert;
    var t' := Nachgetragen(t, b, k, TIEFE - rest);
    NachtragenEins(t, b, k, rest);
    if d == TIEFE - rest {
      NachtragenWirkung(t', b, k, rest - 1);
      Erweitertes(Nachtragen(t', k, GeschwisterVon(b, k), rest - 1), t', b, Nachbar(k, d));
    } else {
      NachtragenKennt(t', b, k, rest - 1, d);
    }
  }

  /** One honest leaf added to the partial tree: its path now shows the true nodes. */
  lemma BelegWirkung(w: Welt, t: Baum, b: Baum, k: Hash, q: Praefix)
    requires Kanonisch(w, b)
    requires GeschwisterVon(t.innen, k) == GeschwisterVon(b.innen, k)
    ensures HashBei(Setze(w, t, k, Wert(b.werte, k)).innen, q) ==
      if Ueber(q, k) then HashBei(b.innen, q) else HashBei(t.innen, q)
  {
    SetzeWirkung(w, t, k, Wert(b.werte, k), q);
    if Ueber(q, k) {
      assert GeschwisterVon(b.innen, k) == MerkleGeschwister(w, b.werte, k);
      MerkleSteigt(w, b.werte, k, TIEFE - |q|);
    }
  }

  lemma BelegErgaenzt(w: Welt, t: Baum, b: Baum, k: Hash, bewiesen: set<Hash>)
    requires Kanonisch(w, b) && Ehrlich(t.innen, b.innen) && Stimmt(t, b, bewiesen)
    ensures var t' := Setze(w, Baum(t.werte, Nachtragen(t.innen, k, GeschwisterVon(b.innen, k), TIEFE)),
                            k, Wert(b.werte, k));
      Ehrlich(t'.innen, b.innen) && Stimmt(t', b, bewiesen + {k})
  {
    var u := Baum(t.werte, Nachtragen(t.innen, k, GeschwisterVon(b.innen, k), TIEFE));
    NachtragenWirkung(t.innen, b.innen, k, TIEFE);
    forall d: nat | d < TIEFE ensures HashBei(u.innen, Nachbar(k, d)) == HashBei(b.innen, Nachbar(k, d)) {
      NachtragenKennt(t.innen, b.innen, k, TIEFE, d);
    }
    assert GeschwisterVon(u.innen, k) == GeschwisterVon(b.innen, k);
    var t' := Setze(w, u, k, Wert(b.werte, k));
    forall q: Praefix
      ensures HashBei(t'.innen, q) == if Ueber(q, k) then HashBei(b.innen, q) else HashBei(u.innen, q)
    {
      BelegWirkung(w, u, b, k, q);
    }
    AufstiegSauber(w, u.innen, k, Wert(b.werte, k), TIEFE);
    BelegStimmt(t', u, t, b, k, bewiesen);
  }

  lemma BelegStimmt(t': Baum, u: Baum, t: Baum, b: Baum, k: Hash, bewiesen: set<Hash>)
    requires Stimmt(t, b, bewiesen) && Ehrlich(u.innen, b.innen) && Erweitert(u.innen, t.innen, b.innen)
    requires t'.werte == Eintragen(t.werte, k, Wert(b.werte, k)) && Sauber(t'.innen)
    requires forall d: nat :: d < TIEFE ==> HashBei(u.innen, Nachbar(k, d)) == HashBei(b.innen, Nachbar(k, d))
    requires forall q: Praefix {:trigger HashBei(t'.innen, q)} ::
      HashBei(t'.innen, q) == if Ueber(q, k) then HashBei(b.innen, q) else HashBei(u.innen, q)
    ensures Ehrlich(t'.innen, b.innen) && Stimmt(t', b, bewiesen + {k})
  {
    forall q | q in t'.innen ensures t'.innen[q] == HashBei(b.innen, q) {
      assert HashBei(t'.innen, q) == t'.innen[q];
    }
    forall k' | k' in bewiesen + {k} ensures StimmtAuf(t', b, k') {
      if k' == k {
        forall d: nat | d <= TIEFE ensures Ueber(Ast(k, d), k) {}
      } else {
        assert StimmtAuf(t, b, k');
      }
    }
  }

  /** A partial tree is built from honest leaves without fail, and agrees with the full tree on all of them. */
  lemma {:induction false} AufbauStimmt(w: Welt, b: Baum, t: Baum, belege: seq<Beleg>, bewiesen: set<Hash>)
    requires Kanonisch(w, b) && Ehrlich(t.innen, b.innen) && Stimmt(t, b, bewiesen)
    requires forall i :: 0 <= i < |belege| ==> BelegEhrlich(w, b, belege[i])
    ensures var r := Aufbau(w, Wurzel(b), t, belege);
      r.Some? && Stimmt(r.wert, b, bewiesen + Schluessel(belege))
    decreases |belege|
  {
    if belege == [] {
      assert bewiesen + Schluessel(belege) == bewiesen;
    } else {
      var e := belege[0];
      assert BelegEhrlich(w, b, e);
      BeweisFuehrtZurWurzel(w, b, e.k);
      PackenRundreise(GeschwisterVon(b.innen, e.k));
      BelegErgaenzt(w, t, b, e.k, bewiesen);
      var t' := Setze(w, Baum(t.werte, Nachtragen(t.innen, e.k, GeschwisterVon(b.innen, e.k), TIEFE)), e.k, e.wert);
      AufbauStimmt(w, b, t', belege[1..], bewiesen + {e.k});
      SchluesselKopf(belege);
      assert bewiesen + Schluessel(belege) == bewiesen + {e.k} + Schluessel(belege[1..]);
    }
  }

  function Schluessel(belege: seq<Beleg>): set<Hash> { set i | 0 <= i < |belege| :: belege[i].k }

  lemma SchluesselKopf(belege: seq<Beleg>)
    requires belege != []
    ensures Schluessel(belege) == {belege[0].k} + Schluessel(belege[1..])
  {
    forall i | 0 < i < |belege| ensures belege[i] == belege[1..][i - 1] {}
  }

  /** The claimed value and siblings are those of the full tree. */
  ghost predicate BelegEhrlich(w: Welt, b: Baum, e: Beleg) {
    e.wert == Wert(b.werte, e.k) && Entpacke(e.bw) == Some(GeschwisterVon(b.innen, e.k))
  }

  /** U names the hash inputs met in checking claim e. */
  ghost predicate BelegBenannt(w: Welt, U: iset<Urbild>, e: Beleg) {
    Entpacke(e.bw).Some? ==> WegUrbilder(w, e.k, e.wert, Entpacke(e.bw).wert, U)
  }

  /** Whether the partial tree of a nonempty list of claims can be built at all. */
  lemma TeilbaumGenau(w: Welt, U: iset<Urbild>, b: Baum, belege: seq<Beleg>)
    requires Kanonisch(w, b) && Sicher(w, U) && BaumUrbilder(w, b.werte, U)
    requires forall i :: 0 <= i < |belege| ==> BelegBenannt(w, U, belege[i])
    ensures TeilbaumAus(w, Wurzel(b), belege).Some? <==>
      forall i :: 0 <= i < |belege| ==> BelegEhrlich(w, b, belege[i])
    ensures TeilbaumAus(w, Wurzel(b), belege).Some? ==>
      Stimmt(TeilbaumAus(w, Wurzel(b), belege).wert, b, Schluessel(belege))
  {
    if Aufbau(w, Wurzel(b), LEERER_BAUM, belege).Some? {
      AufbauPrueft(w, Wurzel(b), LEERER_BAUM, belege);
      forall i | 0 <= i < |belege| ensures BelegEhrlich(w, b, belege[i]) {
        assert BelegBenannt(w, U, belege[i]);
        BeweisBindet(w, U, b, belege[i].k, belege[i].wert, belege[i].bw);
        assert GeschwisterVon(b.innen, belege[i].k) == MerkleGeschwister(w, b.werte, belege[i].k);
      }
    }
    if forall i :: 0 <= i < |belege| ==> BelegEhrlich(w, b, belege[i]) {
      EhrlicherTeilbaum(w, b, belege);
    }
  }

  lemma EhrlicherTeilbaum(w: Welt, b: Baum, belege: seq<Beleg>)
    requires Kanonisch(w, b)
    requires forall i :: 0 <= i < |belege| ==> BelegEhrlich(w, b, belege[i])
    ensures TeilbaumAus(w, Wurzel(b), belege).Some?
    ensures Stimmt(TeilbaumAus(w, Wurzel(b), belege).wert, b, Schluessel(belege))
  {
    AufbauStimmt(w, b, LEERER_BAUM, belege, {});
    if belege != [] {
      assert belege[0].k in Schluessel(belege);
      assert Ast(belege[0].k, TIEFE) == [];
    }
  }

  lemma {:induction false} AufbauPrueft(w: Welt, wurzel: Hash, t: Baum, belege: seq<Beleg>)
    requires Aufbau(w, wurzel, t, belege).Some?
    ensures forall i :: 0 <= i < |belege| ==>
      WurzelAus(w, belege[i].k, belege[i].wert, belege[i].bw) == Some(wurzel)
    decreases |belege|
  {
    if belege != [] {
      var b := belege[0];
      var innen := Nachtragen(t.innen, b.k, Entpacke(b.bw).wert, TIEFE);
      AufbauPrueft(w, wurzel, Setze(w, Baum(t.werte, innen), b.k, b.wert), belege[1..]);
    }
  }

  /** Any writes to proven leaves give the partial tree the root of the full tree. */
  lemma {:induction false} TeilbaumSimuliert(w: Welt, t: Baum, b: Baum, bewiesen: set<Hash>, auftraege: seq<(Hash,
                                             Hash)>)
    requires Stimmt(t, b, bewiesen) && bewiesen != {}
    requires forall a :: a in auftraege ==> a.0 in bewiesen
    ensures Stimmt(SetzeAlle(w, t, auftraege), SetzeAlle(w, b, auftraege), bewiesen)
    ensures Wurzel(SetzeAlle(w, t, auftraege)) == Wurzel(SetzeAlle(w, b, auftraege))
  {
    if auftraege != [] {
      var n := |auftraege| - 1;
      TeilbaumSimuliert(w, t, b, bewiesen, auftraege[..n]);
      forall k | k in bewiesen
        ensures StimmtAuf(SetzeAlle(w, t, auftraege), SetzeAlle(w, b, auftraege), k)
      {
        SetzeSimuliert(w, SetzeAlle(w, t, auftraege[..n]), SetzeAlle(w, b, auftraege[..n]),
                       auftraege[n].0, auftraege[n].1, k);
      }
    }
    StimmtWurzel(SetzeAlle(w, t, auftraege), SetzeAlle(w, b, auftraege), bewiesen);
  }

  lemma StimmtWurzel(t: Baum, b: Baum, bewiesen: set<Hash>)
    requires Stimmt(t, b, bewiesen) && bewiesen != {}
    ensures Wurzel(t) == Wurzel(b)
  {
    var k :| k in bewiesen;
    assert Ast(k, TIEFE) == [];
  }
}
