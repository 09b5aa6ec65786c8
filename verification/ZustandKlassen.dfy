/**
 The two states as objects updated in place, and the execution of a block on either.
 */
module ZustandKlassen {
  import opened Typen
  import opened Uebergang
  import opened Geld
  import opened Sortierung
  import opened Bereich
  import opened F = Fehlerbeweis
  import opened V = Widerlegung
  import K = SmtKlassen
  import S = Smt

  /** All accounts of a shard. */
  class VollZustand {
    const baum: K.Hashbaum
    var konten: map<string, Konto>

    ghost function Bild(): Zustand
      reads this, baum
    {
      Voll(baum.Bild(), konten)
    }

    constructor ()
      ensures fresh(baum) && Bild() == NEU
    {
      baum := new K.Hashbaum();
      konten := map[];
    }

    method Konto(addr: string) returns (k: Option<Konto>)
      ensures k == LiesKonto(Bild(), addr)
    {
      k := Some(if addr in konten then konten[addr] else LEERES_KONTO);
    }

    method SetzeKonto(w: Welt, addr: string, k: Konto)
      modifies this, baum
      ensures Bild() == Uebergang.SetzeKonto(w, old(Bild()), addr, k)
    {
      if k == LEERES_KONTO {
        konten := konten - {addr};
      } else {
        konten := konten[addr := k];
      }
      baum.Setze(w, KontoSchluessel(w, addr), KontoHash(w, addr, k));
    }

    method Verbraucht(w: Welt, id: Hash) returns (v: Option<bool>)
      ensures v == Uebergang.Verbraucht(w, Bild(), id)
    {
      v := Some(S.Wert(baum.werte, QuittungSchluessel(w, id)) == VerbrauchtWert(w));
    }

    method Verbrauche(w: Welt, id: Hash)
      modifies baum
      ensures Bild() == Uebergang.Verbrauche(w, old(Bild()), id)
    {
      baum.Setze(w, QuittungSchluessel(w, id), VerbrauchtWert(w));
    }

    /** An independent copy. */
    method Kopie() returns (n: VollZustand)
      ensures fresh(n) && fresh(n.baum) && n.Bild() == Bild()
    {
      n := new VollZustand();
      n.baum.werte := baum.werte;
      n.baum.innen := baum.innen;
      n.konten := konten;
    }

    /** Sum of all balances, as the machine adds them, and the number of humans. */
    method Geldmenge() returns (summe: Int64, menschen: int)
      ensures summe == Wrap(Summe(konten, Guthaben)) && menschen == Summe(konten, Geld.Kopf)
    {
      hide Summe;
      summe, menschen := 0, 0;
      var rest := konten;
      while rest != map[]
        invariant summe == Wrap(Summe(konten, Guthaben) - Summe(rest, Guthaben))
        invariant menschen == Summe(konten, Geld.Kopf) - Summe(rest, Geld.Kopf)
        decreases |rest|
      {
        var a :| a in rest;
        SummeOhne(rest, Guthaben, a);
        SummeOhne(rest, Geld.Kopf, a);
        summe := Wrap(summe + rest[a].guthaben);
        if rest[a].mensch {
          menschen := menschen + 1;
        }
        rest := rest - {a};
      }
      SummeLeer(Guthaben);
      SummeLeer(Geld.Kopf);
    }

    /** Claims about the given accounts and receipts, with their proofs. */
    method Beweisfuer(w: Welt, adressen: seq<string>, ids: seq<Hash>) returns (v: Vorzustand)
      ensures v == V.Beweisfuer(w, Bild(), adressen, ids)
    {
      var ks: seq<BewiesenesKonto>, qs: seq<BewieseneQuittung> := [], [];
      ghost var soll := V.Beweisfuer(w, Bild(), adressen, ids);
      for i := 0 to |adressen|
        invariant ks == soll.konten[..i]
      {
        var bw := baum.Beweise(KontoSchluessel(w, adressen[i]));
        ks := ks + [BewiesenesKonto(adressen[i], Inhalt(konten, adressen[i]), bw)];
      }
      for i := 0 to |ids|
        invariant qs == soll.quittungen[..i]
      {
        var k := QuittungSchluessel(w, ids[i]);
        var bw := baum.Beweise(k);
        qs := qs + [BewieseneQuittung(ids[i], S.Wert(baum.werte, k) == VerbrauchtWert(w), bw)];
      }
      v := Vorzustand(baum.Wurzel(), ks, qs);
    }
  }

  /** The state of a fraud proof: only the proven accounts and receipts. */
  class BeweisZustand {
    const t: K.Teilbaum
    var konten: map<string, Konto>
    var quittungen: map<Hash, bool>

    ghost function Bild(): Zustand
      reads this, t.b
    {
      Bewiesen(t.Bild(), konten, quittungen)
    }

    constructor (t: K.Teilbaum, konten: map<string, Konto>, quittungen: map<Hash, bool>)
      ensures this.t == t && this.konten == konten && this.quittungen == quittungen
    {
      this.t, this.konten, this.quittungen := t, konten, quittungen;
    }

    method Konto(addr: string) returns (k: Option<Konto>)
      ensures k == LiesKonto(Bild(), addr)
    {
      k := if addr in konten then Some(konten[addr]) else None;
    }

    method SetzeKonto(w: Welt, addr: string, k: Konto)
      modifies this, t.b
      ensures Bild() == Uebergang.SetzeKonto(w, old(Bild()), addr, k)
    {
      konten := konten[addr := k];
      t.b.Setze(w, KontoSchluessel(w, addr), KontoHash(w, addr, k));
    }

    method Verbraucht(w: Welt, id: Hash) returns (v: Option<bool>)
      ensures v == Uebergang.Verbraucht(w, Bild(), id)
    {
      v := if id in quittungen then Some(quittungen[id]) else None;
    }

    method Verbrauche(w: Welt, id: Hash)
      modifies this, t.b
      ensures Bild() == Uebergang.Verbrauche(w, old(Bild()), id)
    {
      quittungen := quittungen[id := true];
      t.b.Setze(w, QuittungSchluessel(w, id), VerbrauchtWert(w));
    }
  }

  lemma KontenMit(ks: seq<BewiesenesKonto>, k: BewiesenesKonto)
    ensures KontenAus(ks + [k]) == KontenAus(ks)[k.addr := k.konto]
  {
    assert (ks + [k])[..|ks|] == ks;
  }

  lemma QuittungenMit(qs: seq<BewieseneQuittung>, q: BewieseneQuittung)
    ensures QuittungenAus(qs + [q]) == QuittungenAus(qs)[q.id := q.verbraucht]
  {
    assert (qs + [q])[..|qs|] == qs;
  }

  lemma OhneEintrag()
    ensures KontenAus([]) == map[] && QuittungenAus([]) == map[]
  {
  }

  lemma KeineBelege()
    ensures K.Belege([], [], []) == []
  {
  }

  lemma AnzahlBelege(w: Welt, v: Vorzustand)
    ensures |Belege(w, v)| == |v.konten| + |v.quittungen|
  {
  }

  lemma BelegKonto(w: Welt, v: Vorzustand, i: nat)
    requires i < |v.konten|
    ensures i < |Belege(w, v)|
    ensures var k := v.konten[i];
      Belege(w, v)[..i + 1] == Belege(w, v)[..i]
        + [S.Beleg(KontoSchluessel(w, k.addr), KontoHash(w, k.addr, k.konto), k.bw)]
  {
    hide KontoHash, KontoSchluessel, QuittungSchluessel;
  }

  lemma BelegQuittung(w: Welt, v: Vorzustand, i: nat)
    requires i < |v.quittungen|
    ensures |v.konten| + i < |Belege(w, v)|
    ensures var q, j := v.quittungen[i], |v.konten| + i;
      Belege(w, v)[..j + 1] == Belege(w, v)[..j]
        + [S.Beleg(QuittungSchluessel(w, q.id), if q.verbraucht then VerbrauchtWert(w) else NULL, q.bw)]
  {
    hide KontoHash, KontoSchluessel, QuittungSchluessel;
  }

  lemma BelegeMit(ks: seq<Hash>, ws: seq<Hash>, bws: seq<S.Beweis>, k: Hash, wert: Hash, bw: S.Beweis)
    requires |ks| == |ws| == |bws|
    ensures K.Belege(ks + [k], ws + [wert], bws + [bw]) == K.Belege(ks, ws, bws) + [S.Beleg(k, wert, bw)]
  {
  }

  /** Check all claims of v and take over what they say; null if one does not fit. */
  method NeuerBeweisZustand(w: Welt, v: Vorzustand) returns (z: BeweisZustand?)
    ensures match F.BeweisZustand(w, v)
      case None => z == null
      case Some(p) => z != null && fresh(z) && fresh(z.t) && fresh(z.t.b) && z.Bild() == p
  {
    hide S.TeilbaumAus, KontenAus, QuittungenAus, KontoHash, KontoSchluessel, QuittungSchluessel, Belege, K.Belege;
    var ks: seq<Hash>, ws: seq<Hash>, bws: seq<S.Beweis> := [], [], [];
    var konten: map<string, Konto>, quittungen: map<Hash, bool> := map[], map[];
    var n := |v.konten|;
    ghost var belege := Belege(w, v);
    OhneEintrag();
    KeineBelege();
    AnzahlBelege(w, v);
    for i := 0 to n
      invariant |ks| == |ws| == |bws| == i
      invariant K.Belege(ks, ws, bws) == belege[..i]
      invariant konten == KontenAus(v.konten[..i])
    {
      var k := v.konten[i];
      BelegKonto(w, v, i);
      BelegeMit(ks, ws, bws, KontoSchluessel(w, k.addr), KontoHash(w, k.addr, k.konto), k.bw);
      ks := ks + [KontoSchluessel(w, k.addr)];
      ws := ws + [KontoHash(w, k.addr, k.konto)];
      bws := bws + [k.bw];
      assert v.konten[..i + 1] == v.konten[..i] + [k];
      KontenMit(v.konten[..i], k);
      konten := konten[k.addr := k.konto];
    }
    assert v.konten[..n] == v.konten;
    for i := 0 to |v.quittungen|
      invariant |ks| == |ws| == |bws| == n + i
      invariant K.Belege(ks, ws, bws) == belege[..n + i]
      invariant quittungen == QuittungenAus(v.quittungen[..i])
    {
      var q := v.quittungen[i];
      BelegQuittung(w, v, i);
      BelegeMit(ks, ws, bws, QuittungSchluessel(w, q.id), if q.verbraucht then VerbrauchtWert(w) else NULL, q.bw);
      ks := ks + [QuittungSchluessel(w, q.id)];
      ws := ws + [if q.verbraucht then VerbrauchtWert(w) else NULL];
      bws := bws + [q.bw];
      assert v.quittungen[..i + 1] == v.quittungen[..i] + [q];
      QuittungenMit(v.quittungen[..i], q);
      quittungen := quittungen[q.id := q.verbraucht];
    }
    assert v.quittungen[..|v.quittungen|] == v.quittungen && belege[..|belege|] == belege;
    var t := K.TeilbaumAus(w, v.wurzel, ks, ws, bws);
    if t == null {
      return null;
    }
    z := new BeweisZustand(t, konten, quittungen);
  }

  /** Either state behind one interface. */
  datatype Form = VollForm(v: VollZustand) | BeweisForm(b: BeweisZustand) {

    ghost function Objekte(): set<object> {
      match this
      case VollForm(v) => {v, v.baum}
      case BeweisForm(b) => {b, b.t.b}
    }

    ghost function Bild(): Zustand
      reads Objekte()
    {
      match this
      case VollForm(v) => v.Bild()
      case BeweisForm(b) => b.Bild()
    }

    method Konto(addr: string) returns (k: Option<Konto>)
      ensures k == LiesKonto(Bild(), addr)
    {
      match this
      case VollForm(v) => k := v.Konto(addr);
      case BeweisForm(b) => k := b.Konto(addr);
    }

    method SetzeKonto(w: Welt, addr: string, k: Konto)
      modifies Objekte()
      ensures Bild() == Uebergang.SetzeKonto(w, old(Bild()), addr, k)
    {
      match this
      case VollForm(v) => v.SetzeKonto(w, addr, k);
      case BeweisForm(b) => b.SetzeKonto(w, addr, k);
    }

    method Verbraucht(w: Welt, id: Hash) returns (r: Option<bool>)
      ensures r == Uebergang.Verbraucht(w, Bild(), id)
    {
      match this
      case VollForm(v) => r := v.Verbraucht(w, id);
      case BeweisForm(b) => r := b.Verbraucht(w, id);
    }

    method Verbrauche(w: Welt, id: Hash)
      modifies Objekte()
      ensures Bild() == Uebergang.Verbrauche(w, old(Bild()), id)
    {
      match this
      case VollForm(v) => v.Verbrauche(w, id);
      case BeweisForm(b) => b.Verbrauche(w, id);
    }

    method Wurzel() returns (h: Hash)
      ensures h == S.Wurzel(Bild().baum)
    {
      match this
      case VollForm(v) => h := v.baum.Wurzel();
      case BeweisForm(b) => h := b.t.b.Wurzel();
    }
  }

  // ---- execution ------------------------------------------------------------------------------

  /** What an execution reports. */
  datatype Ergebnis = Ergebnis(
    wurzel: Hash, ausgang: seq<Quittung>, teilsumme: Teilsumme, angewandt: seq<bool>,
    beruehrt: seq<string>, quittungen: seq<Hash>)

  /** What an execution keeps while it runs, besides the state. */
  datatype Buch = Buch(t: Teilsumme, ausgang: seq<Quittung>, angewandt: seq<bool>, beruehrt: set<string>,
                       quittungen: seq<Hash>)

  ghost function Stand(z: Zustand, x: Buch): Lauf {
    Lauf(z, x.t, x.ausgang, x.angewandt, x.beruehrt, x.quittungen)
  }

  /** State, books and error are those of step s. */
  ghost predicate Wie(s: Schritt, z: Zustand, x: Buch, f: Option<Fehler>) {
    && Stand(z, x) == s.lauf
    && f == (if s.Abbruch? then Some(s.fehler) else None)
  }

  /** Pay out the basic income owed to k. */
  method GeNachtrag(r: Rahmen, k: Konto, x: Buch) returns (k': Konto, x': Buch)
    ensures k' == Nachgetragen(r, k)
    ensures x' == x.(t := x.t.(geAusgezahlt := Wrap(x.t.geAusgezahlt + Nachtrag(r, k))))
  {
    k', x' := k, x;
    if k.mensch && k.geStand < r.geKumuliert {
      var d := Wrap(r.geKumuliert - k.geStand);
      k' := k.(guthaben := Wrap(k.guthaben + d), geStand := r.geKumuliert);
      x' := x.(t := x.t.(geAusgezahlt := Wrap(x.t.geAusgezahlt + d)));
    }
  }

  /** Cap k at the wealth limit. */
  method Kappe(r: Rahmen, k: Konto, x: Buch) returns (k': Konto, x': Buch)
    ensures k' == Gekappt(r, k)
    ensures x' == x.(t := x.t.(gebuehren := Wrap(x.t.gebuehren + Kappung(r, k))))
  {
    k', x' := k, x;
    if r.grenze > 0 && k.mensch && k.guthaben > r.grenze {
      x' := x.(t := x.t.(gebuehren := Wrap(x.t.gebuehren + Wrap(k.guthaben - r.grenze))));
      k' := k.(guthaben := r.grenze);
    }
  }

  method SchreibeGut(w: Welt, r: Rahmen, z: Form, a: string, k: Konto, betrag: Int64, x: Buch) returns (x': Buch)
    modifies z.Objekte()
    ensures Stand(z.Bild(), x') == Gutschrift(w, r, old(Stand(z.Bild(), x)), a, k, betrag)
  {
    hide Form.Bild, Uebergang.SetzeKonto, Nachgetragen, Nachtrag, Gekappt, Kappung;
    var k1;
    k1, x' := GeNachtrag(r, k, x);
    k1 := k1.(guthaben := Wrap(k1.guthaben + betrag));
    k1, x' := Kappe(r, k1, x');
    z.SetzeKonto(w, a, k1);
  }

  method LoeseEin(w: Welt, b: Block, z: Form, q: Quittung, x: Buch) returns (x': Buch, f: Option<Fehler>)
    modifies z.Objekte()
    ensures Wie(Einloesen(w, b, old(Stand(z.Bild(), x)), q), z.Bild(), x', f)
  {
    hide Form.Bild, Uebergang.Verbraucht, Uebergang.Verbrauche, LiesKonto, Gutschrift;
    x', f := x, None;
    if q.nachBereich != b.bereich || w.bereichVon(q.an, b.rahmen.s) != b.bereich || q.betrag <= 0 {
      return x', Some(Unzulaessig);
    }
    var v := z.Verbraucht(w, q.id);
    if v.None? {
      return x', Some(FehltImBeweis);
    }
    x' := x'.(quittungen := x'.quittungen + [q.id]);
    if v.wert {
      return x', Some(Unzulaessig);
    }
    z.Verbrauche(w, q.id);
    x' := x'.(beruehrt := x'.beruehrt + {q.an});
    var k := z.Konto(q.an);
    if k.None? {
      return x', Some(FehltImBeweis);
    }
    x' := SchreibeGut(w, b.rahmen, z, q.an, k.wert, q.betrag, x');
    x' := x'.(t := x'.t.(eingang := Wrap(x'.t.eingang + q.betrag)));
  }

  method MeldeAn(w: Welt, b: Block, z: Form, addr: string, x: Buch) returns (x': Buch, f: Option<Fehler>)
    modifies z.Objekte()
    ensures Wie(Anmelden(w, b, old(Stand(z.Bild(), x)), addr), z.Bild(), x', f)
  {
    hide Form.Bild, Uebergang.SetzeKonto, LiesKonto;
    x', f := x, None;
    if w.bereichVon(addr, b.rahmen.s) != b.bereich {
      return x', Some(Unzulaessig);
    }
    x' := x'.(beruehrt := x'.beruehrt + {addr});
    var k := z.Konto(addr);
    if k.None? {
      return x', Some(FehltImBeweis);
    }
    if k.wert.mensch {
      return;
    }
    z.SetzeKonto(w, addr,
      k.wert.(mensch := true, geStand := b.rahmen.geKumuliert, guthaben := Wrap(k.wert.guthaben + GRUNDBETRAG)));
    x' := x'.(t := x'.t.(geschoepft := Wrap(x'.t.geschoepft + GRUNDBETRAG), neueMenschen := x'.t.neueMenschen + 1));
  }

  /** One transfer; ok tells whether it was applied. */
  method Ueberweisen(w: Welt, b: Block, z: Form, i: nat, u: Ueberweisung, x: Buch)
    returns (ok: bool, x': Buch, f: Option<Fehler>)
    modifies z.Objekte()
    ensures Wie(Ueberweise(w, b, old(Stand(z.Bild(), x)), i, u), z.Bild(),
                if f.None? then x'.(angewandt := x'.angewandt + [ok]) else x', f)
  {
    hide Form.Bild, Uebergang.SetzeKonto, LiesKonto, Gutschrift, Nachgetragen, Nachtrag, Gebuehr, Gedeckt,
      Belastet, VorabUebersprungen, Wrap;
    x', f, ok := x, None, false;
    if w.bereichVon(u.von, b.rahmen.s) != b.bereich {
      return false, x', Some(Unzulaessig);
    }
    if VorabUebersprungen(w, u) {
      return;
    }
    x' := x'.(beruehrt := x'.beruehrt + {u.von});
    var k := z.Konto(u.von);
    if k.None? {
      return false, x', Some(FehltImBeweis);
    }
    var von;
    von, x' := GeNachtrag(b.rahmen, k.wert, x');
    if !Gedeckt(u, von) {
      z.SetzeKonto(w, u.von, von);
      return;
    }
    z.SetzeKonto(w, u.von, Belastet(u, von));
    x' := x'.(t := x'.t.(gebuehren := Wrap(x'.t.gebuehren + Gebuehr(u.betrag))));
    if u.ausstieg {
      x' := x'.(t := x'.t.(ausstiege := Wrap(x'.t.ausstiege + u.betrag)));
    } else if w.bereichVon(u.an, b.rahmen.s) == b.bereich {
      x' := x'.(beruehrt := x'.beruehrt + {u.an});
      var an := z.Konto(u.an);
      if an.None? {
        return false, x', Some(FehltImBeweis);
      }
      x' := SchreibeGut(w, b.rahmen, z, u.an, an.wert, u.betrag, x');
    } else {
      var q := Quittung(w.sha(QuittungU(b.id, i)), b.bereich, w.bereichVon(u.an, b.rahmen.s), u.an, u.betrag);
      x' := x'.(ausgang := x'.ausgang + [q], t := x'.t.(ausgang := Wrap(x'.t.ausgang + u.betrag)));
    }
    ok := true;
  }

  method Aufgelistet(m: set<string>) returns (s: seq<string>)
    ensures s == SortierteListe(m)
  {
    var rest := m;
    s := [];
    while rest != {}
      invariant rest <= m && multiset(s) == multiset(m - rest)
      decreases |rest|
    {
      var a :| a in rest;
      assert m - (rest - {a}) == (m - rest) + {a};
      s := s + [a];
      rest := rest - {a};
    }
    assert m - {} == m;
    SortiereRichtig(s);
    SortiertEindeutig(Sortiere(s), SortierteListe(m));
    s := Sortiere(s);
  }

  /** Execute a block on z, in place. */
  method Ausfuehren(w: Welt, z: Form, bereich: int, r: Rahmen, e: Eingaben, blockID: Hash)
    returns (erg: Ergebnis, f: Option<Fehler>)
    modifies z.Objekte()
    ensures var s := Uebergang.Ausfuehren(w, Block(bereich, r, blockID), old(z.Bild()), e);
      && z.Bild() == s.lauf.z
      && f == (if s.Abbruch? then Some(s.fehler) else None)
      && erg == Ergebnis(if s.Weiter? then S.Wurzel(s.lauf.z.baum) else NULL, s.lauf.ausgang, s.lauf.t,
                         s.lauf.angewandt, if s.Weiter? then SortierteListe(s.lauf.beruehrt) else [], s.lauf.quittungen)
  {
    hide Tue, Folge, Plan, SortierteListe, Form.Bild, Einloesen, Anmelden, Ueberweise;
    var b := Block(bereich, r, blockID);
    ghost var plan, n, m := Plan(e), |e.eingang|, |e.registrierung|;
    ghost var soll := Folge(w, b, Anfang(z.Bild()), plan);
    var x := Buch(NULLSUMME, [], [], {}, []);
    PlanLaenge(e);
    assert plan[0..] == plan;
    for i := 0 to |e.eingang|
      invariant Folge(w, b, Stand(z.Bild(), x), plan[i..]) == soll
    {
      FolgeAb(w, b, Stand(z.Bild(), x), e, i);
      x, f := LoeseEin(w, b, z, e.eingang[i], x);
      if f.Some? {
        return Ergebnis(NULL, x.ausgang, x.t, x.angewandt, [], x.quittungen), f;
      }
    }
    for i := 0 to |e.registrierung|
      invariant Folge(w, b, Stand(z.Bild(), x), plan[n + i..]) == soll
    {
      FolgeAb(w, b, Stand(z.Bild(), x), e, n + i);
      x, f := MeldeAn(w, b, z, e.registrierung[i], x);
      if f.Some? {
        return Ergebnis(NULL, x.ausgang, x.t, x.angewandt, [], x.quittungen), f;
      }
    }
    for i := 0 to |e.ueberweisungen|
      invariant Folge(w, b, Stand(z.Bild(), x), plan[n + m + i..]) == soll
    {
      FolgeAb(w, b, Stand(z.Bild(), x), e, n + m + i);
      var ok;
      ok, x, f := Ueberweisen(w, b, z, i, e.ueberweisungen[i], x);
      if f.Some? {
        return Ergebnis(NULL, x.ausgang, x.t, x.angewandt, [], x.quittungen), f;
      }
      x := x.(angewandt := x.angewandt + [ok]);
    }
    FolgeEnde(w, b, Stand(z.Bild(), x), plan);
    var wurzel := z.Wurzel();
    var beruehrt := Aufgelistet(x.beruehrt);
    return Ergebnis(wurzel, x.ausgang, x.t, x.angewandt, beruehrt, x.quittungen), None;
  }

  lemma PlanLaenge(e: Eingaben)
    ensures |Plan(e)| == |e.eingang| + |e.registrierung| + |e.ueberweisungen|
  {
  }

  lemma FolgeEnde(w: Welt, b: Block, l: Lauf, plan: seq<Eingabe>)
    ensures Folge(w, b, l, plan[|plan|..]) == Weiter(l)
  {
  }

  /** The k-th input of a block and the rest after it. */
  lemma FolgeAb(w: Welt, b: Block, l: Lauf, e: Eingaben, k: nat)
    requires k < |Plan(e)|
    ensures var n, m := |e.eingang|, |e.registrierung|;
      var s := if k < n then Einloesen(w, b, l, e.eingang[k])
        else if k < n + m then Anmelden(w, b, l, e.registrierung[k - n])
        else Ueberweise(w, b, l, k - n - m, e.ueberweisungen[k - n - m]);
      Folge(w, b, l, Plan(e)[k..]) == match s
        case Weiter(l') => Folge(w, b, l', Plan(e)[k + 1..])
        case Abbruch(l', f) => Abbruch(l', f)
  {
    hide Einloesen, Anmelden, Ueberweise;
    assert Plan(e)[k..][1..] == Plan(e)[k + 1..];
  }

  // ---- fraud proofs ---------------------------------------------------------------------------------

  /** Does fb refute its block, under the frame the checker knows? */
  method PruefeFehlerbeweis(w: Welt, fb: Beweisstueck, r: Rahmen) returns (u: Urteil)
    ensures u == Pruefe(w, fb, r)
  {
    var b := fb.block;
    if fb.vor.wurzel != b.vor {
      return Ungueltig;
    }
    var bz := NeuerBeweisZustand(w, fb.vor);
    if bz == null {
      return Ungueltig;
    }
    var erg, f := Ausfuehren(w, BeweisForm(bz), b.bereich, r, b.eingaben, EingabenID(w, b));
    if f == Some(FehltImBeweis) {
      return Ungueltig;
    }
    if f.Some? {
      return Gueltig(true);
    }
    return Gueltig(erg.wurzel != b.nach || erg.teilsumme != b.teilsumme || erg.ausgang != b.ausgang);
  }

  /** Build the proof from a trial run on a copy; the shard's own state stays as it is. */
  method ErstelleFehlerbeweis(w: Welt, vor: VollZustand, b: BereichsBlock, r: Rahmen) returns (fb: Beweisstueck)
    ensures fb == Erstelle(w, vor.Bild(), b, r)
    ensures vor.Bild() == old(vor.Bild())
  {
    hide EingabenID, Uebergang.Ausfuehren, V.Beweisfuer, SortierteListe, S.Wurzel;
    var probe := vor.Kopie();
    var erg, _ := Ausfuehren(w, VollForm(probe), b.bereich, r, b.eingaben, EingabenID(w, b));
    var v := vor.Beweisfuer(w, erg.beruehrt, erg.quittungen);
    fb := Beweisstueck(b, v);
  }
}
