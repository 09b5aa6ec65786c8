/**
 The tree as the program keeps it: two maps updated in place, one path per write.
 */
module SmtKlassen {
  import opened Typen
  import opened S = Smt

  class Hashbaum {
    var werte: map<Hash, Hash>
    var innen: map<Praefix, Hash>

    ghost function Bild(): Baum
      reads this
    {
      Baum(werte, innen)
    }

    constructor ()
      ensures Bild() == LEERER_BAUM
    {
      werte, innen := map[], map[];
    }

    function Wurzel(): (h: Hash)
      reads this
      ensures h == S.Wurzel(Bild())
    {
      HashBei(innen, [])
    }

    /** Write leaf k and recompute its path, bottom up. */
    method Setze(w: Welt, k: Hash, wert: Hash)
      modifies this
      ensures Bild() == S.Setze(w, old(Bild()), k, wert)
    {
      if wert == NULL {
        werte := werte - {k};
      } else {
        werte := werte[k := wert];
      }
      var h, hoehe := wert, 0;
      while true
        invariant 0 <= hoehe <= TIEFE
        invariant werte == Eintragen(old(werte), k, wert)
        invariant Aufstieg(w, innen, k, h, TIEFE - hoehe) == Aufstieg(w, old(innen), k, wert, TIEFE)
        decreases TIEFE - hoehe
      {
        var p := Ast(k, hoehe);
        if h == NULL {
          innen := innen - {p};
        } else {
          innen := innen[p := h];
        }
        if hoehe == TIEFE {
          break;
        }
        var gh := HashBei(innen, Nachbar(k, hoehe));
        h := Paar(w, k, hoehe, h, gh);
        hoehe := hoehe + 1;
      }
    }

    /** The siblings of k, the null ones only marked. */
    method Beweise(k: Hash) returns (bw: Beweis)
      ensures bw == S.Beweise(Bild(), k)
    {
      ghost var g := GeschwisterVon(innen, k);
      var maske: seq<bool>, geschw: seq<Hash> := [], [];
      for hoehe := 0 to TIEFE
        invariant |maske| == hoehe && forall i :: 0 <= i < hoehe ==> maske[i] == (g[i] != NULL)
        invariant geschw == Dichte(g[..hoehe])
      {
        var gh := HashBei(innen, Nachbar(k, hoehe));
        assert gh == g[hoehe];
        DichteMit(g[..hoehe], gh);
        assert g[..hoehe + 1] == g[..hoehe] + [gh];
        maske := maske + [gh != NULL];
        if gh != NULL {
          geschw := geschw + [gh];
        }
      }
      assert g[..TIEFE] == g;
      bw := Beweis(maske, geschw);
    }
  }

  lemma {:induction false} DichteMit(g: seq<Hash>, h: Hash)
    ensures Dichte(g + [h]) == Dichte(g) + if h == NULL then [] else [h]
  {
    if g == [] {
      assert (g + [h])[1..] == [];
    } else {
      DichteMit(g[1..], h);
      assert (g + [h])[1..] == g[1..] + [h];
    }
  }

  /** Unpack a proof; None if it carries too few or too many siblings. */
  method Auspacken(bw: Beweis) returns (r: Option<Geschwister>)
    ensures r == Entpacke(bw)
  {
    var g: seq<Hash>, j := [], 0;
    assert forall x: seq<Hash> :: g + x == x;
    for hoehe := 0 to TIEFE
      invariant |g| == hoehe && 0 <= j <= |bw.geschw|
      invariant S.Auspacken(bw.nichtleer, bw.geschw)
             == Vorangestellt(g, S.Auspacken(bw.nichtleer[hoehe..], bw.geschw[j..]))
    {
      assert bw.nichtleer[hoehe..][1..] == bw.nichtleer[hoehe + 1..];
      if bw.nichtleer[hoehe] {
        if j >= |bw.geschw| {
          return None;
        }
        assert bw.geschw[j..][1..] == bw.geschw[j + 1..];
        g := g + [bw.geschw[j]];
        j := j + 1;
      } else {
        g := g + [NULL];
      }
      assert forall rest: Option<seq<Hash>> :: rest.Some? ==> g[..hoehe] + ([g[hoehe]] + rest.wert) == g + rest.wert;
    }
    if j != |bw.geschw| {
      return None;
    }
    assert g + [] == g;
    return Some(g);
  }

  function Vorangestellt(g: seq<Hash>, r: Option<seq<Hash>>): Option<seq<Hash>> {
    match r case None => None case Some(x) => Some(g + x)
  }

  /** The root that leaf `wert` at k and a proof lead to. */
  method WurzelAus(w: Welt, k: Hash, wert: Hash, bw: Beweis) returns (r: Option<Hash>)
    ensures r == S.WurzelAus(w, k, wert, bw)
  {
    var g := Auspacken(bw);
    if g.None? {
      return None;
    }
    var h := wert;
    for hoehe := 0 to TIEFE
      invariant h == Steige(w, k, wert, g.wert, hoehe)
    {
      h := Paar(w, k, hoehe, h, g.wert[hoehe]);
    }
    return Some(h);
  }

  /** A tree that knows only proven leaves. */
  class Teilbaum {
    const wurzel: Hash
    const b: Hashbaum

    ghost function Bild(): Baum
      reads b
    {
      b.Bild()
    }

    constructor (wurzel: Hash)
      ensures fresh(b) && Bild() == LEERER_BAUM && this.wurzel == wurzel
    {
      this.wurzel := wurzel;
      b := new Hashbaum();
    }

    /** Enter the siblings of k that are neither null nor known. */
    method TrageNach(k: Hash, g: Geschwister)
      modifies b
      ensures Bild() == Baum(old(b.werte), Nachtragen(old(b.innen), k, g, TIEFE))
    {
      for hoehe := 0 to TIEFE
        invariant b.werte == old(b.werte)
        invariant Nachtragen(b.innen, k, g, TIEFE - hoehe) == Nachtragen(old(b.innen), k, g, TIEFE)
      {
        var gp := Nachbar(k, hoehe);
        if gp !in b.innen && g[hoehe] != NULL {
          b.innen := b.innen[gp := g[hoehe]];
        }
      }
    }
  }

  function Belege(schluessel: seq<Hash>, werte: seq<Hash>, beweise: seq<Beweis>): seq<Beleg>
    requires |schluessel| == |werte| == |beweise|
  {
    seq(|schluessel|, i requires 0 <= i < |schluessel| => Beleg(schluessel[i], werte[i], beweise[i]))
  }

  /** Rebuild a partial tree from claims, each checked against the root; null if one does not fit. */
  method TeilbaumAus(w: Welt, wurzel: Hash, schluessel: seq<Hash>, werte: seq<Hash>, beweise: seq<Beweis>)
    returns (t: Teilbaum?)
    requires |schluessel| == |werte| == |beweise|
    ensures match S.TeilbaumAus(w, wurzel, Belege(schluessel, werte, beweise))
      case None => t == null
      case Some(b) => t != null && fresh(t) && fresh(t.b) && t.Bild() == b
  {
    ghost var belege := Belege(schluessel, werte, beweise);
    var n := new Teilbaum(wurzel);
    for i := 0 to |schluessel|
      invariant fresh(n.b)
      invariant Aufbau(w, wurzel, LEERER_BAUM, belege) == Aufbau(w, wurzel, n.Bild(), belege[i..])
    {
      var k := schluessel[i];
      assert belege[i..][0] == Beleg(k, werte[i], beweise[i]) && belege[i..][1..] == belege[i + 1..];
      var r := WurzelAus(w, k, werte[i], beweise[i]);
      if r.None? || r.wert != wurzel {
        return null;
      }
      var g := Auspacken(beweise[i]);
      n.TrageNach(k, g.wert);
      n.b.Setze(w, k, werte[i]);
    }
    if |schluessel| > 0 && n.b.Wurzel() != wurzel {
      return null;
    }
    return n;
  }
}
