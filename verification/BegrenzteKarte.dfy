/**
 The bounded map per sender: full means counting new senders by their network, in a
 second map in which no /32 takes more than its share.
 */
module BegrenzteKarte {
  import opened Typen

  const GROB_HOECHSTENS := 50_000
  const JE_PRAEFIX := 64

  /** Keys: a sender as given, or a network as the overflow map names it. */
  datatype Schluessel = Text(s: string) | Netz24(netz: int) | Netz48(praefix: int, netz: int) | Netz32(praefix: int)

  /** The network of an address. */
  datatype Netz = V4(netz: int) | V6(praefix: int, netz: int)

  /** What a map is set up with; netzVon stands for address parsing. */
  datatype Einstellung = Einstellung(
    max: nat, grobMax: nat, netzVon: Schluessel -> Option<Netz>, wertWennVoll: Option<int>)

  /** The contents of a map and, if it has one, of its overflow map. */
  datatype Inhalt = Inhalt(m: map<Schluessel, int>, g: Option<map<Schluessel, int>>)

  // ---- what the operations do ---------------------------------------------------------------

  function Netze48(m: map<Schluessel, int>, p: int): set<Schluessel> {
    set k | k in m && k.Netz48? && k.praefix == p
  }

  function Anzahl48(m: map<Schluessel, int>, p: int): nat { |Netze48(m, p)| }

  /** The key a network counts under. */
  function JePraefix(g: map<Schluessel, int>, n: Netz): Schluessel {
    match n
    case V4(a) => Netz24(a)
    case V6(p, a) => if Netz48(p, a) !in g && Anzahl48(g, p) >= JE_PRAEFIX then Netz32(p) else Netz48(p, a)
  }

  /** Where a new sender counts while the map is full. */
  function Ausweich(e: Einstellung, z: Inhalt, absender: Schluessel): Option<Schluessel> {
    if z.g.None? || e.netzVon(absender).None? then None
    else Some(JePraefix(z.g.wert, e.netzVon(absender).wert))
  }

  function Speichern(e: Einstellung, z: Inhalt, key: Schluessel, v: int, absender: Schluessel): (Inhalt, bool) {
    if key in z.m || |z.m| < e.max then (z.(m := z.m[key := v]), true)
    else
      match Ausweich(e, z, absender)
      case None => (z, false)
      case Some(n) =>
        if n in z.g.wert || |z.g.wert| < e.grobMax then (z.(g := Some(z.g.wert[n := v])), true) else (z, false)
  }

  function Lesen(e: Einstellung, z: Inhalt, key: Schluessel, absender: Schluessel): Option<int> {
    if key in z.m then Some(z.m[key])
    else if |z.m| < e.max then None
    else
      match Ausweich(e, z, absender)
      case None => e.wertWennVoll
      case Some(n) =>
        if n in z.g.wert then Some(z.g.wert[n]) else if |z.g.wert| < e.grobMax then None else e.wertWennVoll
  }

  function LesenOderSpeichern(e: Einstellung, z: Inhalt, key: Schluessel, v: int): (Inhalt, Option<int>) {
    if key in z.m then (z, Some(z.m[key]))
    else if |z.m| < e.max then (z.(m := z.m[key := v]), Some(v))
    else
      match Ausweich(e, z, key)
      case None => (z, None)
      case Some(n) =>
        if n in z.g.wert then (z, Some(z.g.wert[n]))
        else if |z.g.wert| < e.grobMax then (z.(g := Some(z.g.wert[n := v])), Some(v))
        else (z, None)
  }

  function Loeschen(z: Inhalt, key: Schluessel): Inhalt {
    if key in z.m then z.(m := z.m - {key})
    else if z.g.Some? then z.(g := Some(z.g.wert - {key}))
    else z
  }

  /** Storing while the map is full is storing in the overflow map, by itself, under the network's key. */
  lemma SpeichernImGroben(e: Einstellung, eg: Einstellung, z: Inhalt, key: Schluessel, v: int, absender: Schluessel,
                          n: Schluessel)
    requires key !in z.m && |z.m| >= e.max && z.g.Some? && Ausweich(e, z, absender) == Some(n) && eg.max == e.grobMax
    ensures var (zg, ok) := Speichern(eg, Inhalt(z.g.wert, None), n, v, n);
      zg.g.None? && Speichern(e, z, key, v, absender) == (z.(g := Some(zg.m)), ok)
  {
    hide JePraefix;
  }

  lemma KeinPlatz(e: Einstellung, z: Inhalt, key: Schluessel, v: int, absender: Schluessel)
    requires key !in z.m && |z.m| >= e.max && Ausweich(e, z, absender) == None
    ensures Speichern(e, z, key, v, absender) == (z, false)
  {
  }

  lemma Platz(e: Einstellung, z: Inhalt, key: Schluessel, v: int, absender: Schluessel)
    requires key in z.m || |z.m| < e.max
    ensures Speichern(e, z, key, v, absender) == (z.(m := z.m[key := v]), true)
  {
  }

  lemma LesenOderSpeichernImGroben(e: Einstellung, eg: Einstellung, z: Inhalt, key: Schluessel, v: int,
                                   n: Schluessel)
    requires key !in z.m && |z.m| >= e.max && z.g.Some? && Ausweich(e, z, key) == Some(n) && eg.max == e.grobMax
    ensures var (zg, r) := LesenOderSpeichern(eg, Inhalt(z.g.wert, None), n, v);
      zg.g.None? && LesenOderSpeichern(e, z, key, v) == (z.(g := Some(zg.m)), r)
  {
    hide JePraefix;
  }

  // ---- what every run keeps -----------------------------------------------------------------

  predicate NurNetze(g: map<Schluessel, int>) { forall k :: k in g ==> !k.Text? }

  ghost predicate GerechtVerteilt(g: map<Schluessel, int>) { forall p :: Anzahl48(g, p) <= JE_PRAEFIX }

  ghost predicate InGrenzen(e: Einstellung, z: Inhalt) {
    && |z.m| <= e.max
    && (z.g.Some? ==> |z.g.wert| <= e.grobMax && NurNetze(z.g.wert) && GerechtVerteilt(z.g.wert))
  }

  datatype Vorgang =
    | Store(key: Schluessel, v: int, absender: Schluessel)
    | LoadOrStore(key: Schluessel, v: int)
    | Delete(key: Schluessel)

  function Wirkung(e: Einstellung, z: Inhalt, op: Vorgang): Inhalt {
    match op
    case Store(key, v, absender) => Speichern(e, z, key, v, absender).0
    case LoadOrStore(key, v) => LesenOderSpeichern(e, z, key, v).0
    case Delete(key) => Loeschen(z, key)
  }

  function Ablauf(e: Einstellung, z: Inhalt, ops: seq<Vorgang>): Inhalt {
    if ops == [] then z else Wirkung(e, Ablauf(e, z, ops[..|ops| - 1]), ops[|ops| - 1])
  }

  lemma GroesseMit(m: map<Schluessel, int>, k: Schluessel, v: int)
    ensures |m[k := v]| == if k in m then |m| else |m| + 1
  {
    if k in m { assert m[k := v].Keys == m.Keys; } else { assert m[k := v].Keys == m.Keys + {k}; }
    assert |m[k := v].Keys| == |m[k := v]|;
  }

  lemma GroesseOhne(m: map<Schluessel, int>, k: Schluessel)
    ensures |m - {k}| == if k in m then |m| - 1 else |m|
  {
    assert (m - {k}).Keys == m.Keys - {k};
    assert |(m - {k}).Keys| == |m - {k}| && |m.Keys| == |m|;
  }

  lemma Anzahl48Mit(m: map<Schluessel, int>, k: Schluessel, v: int, p: int)
    ensures Anzahl48(m[k := v], p) == Anzahl48(m, p) + (if k.Netz48? && k.praefix == p && k !in m then 1 else 0)
  {
    hide Netze48;
    NetzeMit(m, k, v, p);
  }

  lemma NetzeMit(m: map<Schluessel, int>, k: Schluessel, v: int, p: int)
    ensures Netze48(m[k := v], p) ==
      if k.Netz48? && k.praefix == p && k !in m then Netze48(m, p) + {k} else Netze48(m, p)
    ensures k in Netze48(m, p) <==> k in m && k.Netz48? && k.praefix == p
  {
  }

  lemma Anzahl48Ohne(m: map<Schluessel, int>, k: Schluessel, p: int)
    ensures Anzahl48(m - {k}, p) == Anzahl48(m, p) - (if k.Netz48? && k.praefix == p && k in m then 1 else 0)
  {
    hide Netze48;
    NetzeOhne(m, k, p);
  }

  lemma NetzeOhne(m: map<Schluessel, int>, k: Schluessel, p: int)
    ensures Netze48(m - {k}, p) == if k.Netz48? && k.praefix == p && k in m then Netze48(m, p) - {k} else Netze48(m, p)
    ensures k in Netze48(m, p) <==> k in m && k.Netz48? && k.praefix == p
  {
  }

  // ---- the counters per /32 --------------------------------------------------------------------

  /** pr holds the number of /48 of each /32 that has any. */
  ghost predicate ZaehltPraefixe(m: map<Schluessel, int>, pr: map<int, int>) {
    forall p :: (p in pr <==> Anzahl48(m, p) > 0) && (p in pr ==> pr[p] == Anzahl48(m, p))
  }

  function Gerechnet(pr: map<int, int>, k: Schluessel, plus: int): map<int, int> {
    if !k.Netz48? then pr
    else
      var z := (if k.praefix in pr then pr[k.praefix] else 0) + plus;
      if z <= 0 then pr - {k.praefix} else pr[k.praefix := z]
  }

  lemma PraefixeMit(m: map<Schluessel, int>, pr: map<int, int>, k: Schluessel, v: int)
    requires ZaehltPraefixe(m, pr)
    ensures ZaehltPraefixe(m[k := v], if k in m then pr else Gerechnet(pr, k, 1))
  {
    hide Anzahl48;
    var m', pr' := m[k := v], if k in m then pr else Gerechnet(pr, k, 1);
    forall p ensures (p in pr' <==> Anzahl48(m', p) > 0) && (p in pr' ==> pr'[p] == Anzahl48(m', p)) {
      Anzahl48Mit(m, k, v, p);
    }
  }

  lemma PraefixeOhne(m: map<Schluessel, int>, pr: map<int, int>, k: Schluessel)
    requires ZaehltPraefixe(m, pr) && k in m
    ensures ZaehltPraefixe(m - {k}, Gerechnet(pr, k, -1))
  {
    hide Anzahl48;
    var m', pr' := m - {k}, Gerechnet(pr, k, -1);
    forall p ensures (p in pr' <==> Anzahl48(m', p) > 0) && (p in pr' ==> pr'[p] == Anzahl48(m', p)) {
      Anzahl48Ohne(m, k, p);
    }
  }

  /** Storing under the key a network counts under keeps every /32 within its share. */
  lemma GerechtBleibt(g: map<Schluessel, int>, n: Netz, v: int)
    requires GerechtVerteilt(g) && NurNetze(g)
    ensures GerechtVerteilt(g[JePraefix(g, n) := v]) && NurNetze(g[JePraefix(g, n) := v])
  {
    hide Anzahl48;
    var g' := g[JePraefix(g, n) := v];
    forall p ensures Anzahl48(g', p) <= JE_PRAEFIX { Anzahl48Mit(g, JePraefix(g, n), v, p); }
  }

  lemma WirkungInGrenzen(e: Einstellung, z: Inhalt, op: Vorgang)
    requires InGrenzen(e, z)
    ensures InGrenzen(e, Wirkung(e, z, op))
  {
    hide InGrenzen, Speichern, LesenOderSpeichern, Loeschen;
    match op
    case Store(key, v, absender) => SpeichernInGrenzen(e, z, key, v, absender);
    case LoadOrStore(key, v) => LesenOderSpeichernIstSpeichern(e, z, key, v); SpeichernInGrenzen(e, z, key, v, key);
    case Delete(key) => LoeschenInGrenzen(e, z, key);
  }

  lemma SpeichernInGrenzen(e: Einstellung, z: Inhalt, key: Schluessel, v: int, absender: Schluessel)
    requires InGrenzen(e, z)
    ensures InGrenzen(e, Speichern(e, z, key, v, absender).0)
  {
    hide GerechtVerteilt, NurNetze, JePraefix;
    GroesseMit(z.m, key, v);
    if z.g.Some? && e.netzVon(absender).Some? { GrobInGrenzen(z.g.wert, e.netzVon(absender).wert, v); }
  }

  /** LoadOrStore changes what a store of an unknown key would, or nothing. */
  lemma LesenOderSpeichernIstSpeichern(e: Einstellung, z: Inhalt, key: Schluessel, v: int)
    ensures LesenOderSpeichern(e, z, key, v).0 in [z, Speichern(e, z, key, v, key).0]
  {
    hide JePraefix;
  }

  lemma LoeschenInGrenzen(e: Einstellung, z: Inhalt, key: Schluessel)
    requires InGrenzen(e, z)
    ensures InGrenzen(e, Loeschen(z, key))
  {
    hide GerechtVerteilt, NurNetze;
    GroesseOhne(z.m, key);
    if z.g.Some? { GrobOhne(z.g.wert, key); }
  }

  lemma GrobInGrenzen(g: map<Schluessel, int>, n: Netz, v: int)
    requires GerechtVerteilt(g) && NurNetze(g)
    ensures var k := JePraefix(g, n); var g' := g[k := v];
      GerechtVerteilt(g') && NurNetze(g') && |g'| == if k in g then |g| else |g| + 1
  {
    GerechtBleibt(g, n, v);
    GroesseMit(g, JePraefix(g, n), v);
  }

  lemma GrobOhne(g: map<Schluessel, int>, k: Schluessel)
    requires GerechtVerteilt(g) && NurNetze(g)
    ensures GerechtVerteilt(g - {k}) && NurNetze(g - {k}) && |g - {k}| <= |g|
  {
    hide Anzahl48;
    GroesseOhne(g, k);
    forall p ensures Anzahl48(g - {k}, p) <= JE_PRAEFIX { Anzahl48Ohne(g, k, p); }
  }

  /** No run of operations takes either map past its bound or a /32 past its share. */
  lemma {:induction false} AblaufInGrenzen(e: Einstellung, z: Inhalt, ops: seq<Vorgang>)
    requires InGrenzen(e, z)
    ensures InGrenzen(e, Ablauf(e, z, ops))
  {
    if ops != [] {
      AblaufInGrenzen(e, z, ops[..|ops| - 1]);
      WirkungInGrenzen(e, Ablauf(e, z, ops[..|ops| - 1]), ops[|ops| - 1]);
    }
  }

  // ---- how many networks it takes --------------------------------------------------------------

  function Praefixe(g: map<Schluessel, int>): set<int> {
    set k | k in g && (k.Netz48? || k.Netz32?) :: k.praefix
  }

  lemma {:induction false} JePraefixHoechstens65(g: map<Schluessel, int>, ps: set<int>)
    requires GerechtVerteilt(g)
    ensures |set k | k in g && (k.Netz48? || k.Netz32?) && k.praefix in ps| <= (JE_PRAEFIX + 1) * |ps|
    decreases ps
  {
    var alle := set k | k in g && (k.Netz48? || k.Netz32?) && k.praefix in ps;
    if p :| p in ps {
      var rest := set k | k in g && (k.Netz48? || k.Netz32?) && k.praefix in ps - {p};
      JePraefixHoechstens65(g, ps - {p});
      assert alle <= rest + (Netze48(g, p) + {Netz32(p)});
      Hoechstens(alle, rest, Netze48(g, p), {Netz32(p)});
      assert Anzahl48(g, p) <= JE_PRAEFIX;
    } else {
      assert alle == {};
    }
  }

  lemma Hoechstens(a: set<Schluessel>, b: set<Schluessel>, c: set<Schluessel>, d: set<Schluessel>)
    requires a <= b + (c + d)
    ensures |a| <= |b| + |c| + |d|
  {
    assert b + (c + d) == a + (b + (c + d) - a);
    assert |b + (c + d)| <= |b| + |c + d| && |c + d| <= |c| + |d|;
  }

  /** From IPv6 alone the overflow map fills only with 770 different /32 or more. */
  lemma GrobBraucht770(e: Einstellung, z: Inhalt)
    requires e.grobMax == GROB_HOECHSTENS && InGrenzen(e, z) && z.g.Some? && |z.g.wert| >= e.grobMax
    requires forall k :: k in z.g.wert ==> !k.Netz24?
    ensures |Praefixe(z.g.wert)| >= 770
  {
    var g := z.g.wert;
    var ps := Praefixe(g);
    JePraefixHoechstens65(g, ps);
    var alle := set k | k in g && (k.Netz48? || k.Netz32?) && k.praefix in ps;
    assert alle == g.Keys;
    assert |g.Keys| == |g|;
  }

  // ---- senders among each other -------------------------------------------------------------------

  /** What was stored is read back by the same sender. */
  lemma SpeichernDannLesen(e: Einstellung, z: Inhalt, key: Schluessel, v: int, absender: Schluessel)
    ensures var (z', ok) := Speichern(e, z, key, v, absender);
      && (ok ==> Lesen(e, z', key, absender) == Some(v))
      && (!ok ==> z' == z && Lesen(e, z, key, absender) == e.wertWennVoll)
  {
    hide Anzahl48;
    if Ausweich(e, z, absender).Some? {
      var n := e.netzVon(absender).wert;
      if n.V6? { Anzahl48Mit(z.g.wert, JePraefix(z.g.wert, n), v, n.praefix); }
    }
  }

  /** Two networks that share nothing: different /24, or different /32. */
  predicate Fremd(n: Option<Netz>, n': Option<Netz>) {
    n.None? || n'.None? || (n.wert.V4? != n'.wert.V4?)
    || (if n.wert.V4? then n.wert != n'.wert else n.wert.praefix != n'.wert.praefix)
  }

  /** While the overflow map has room, a store that does not itself fill the map changes nothing for
      a sender from elsewhere. */
  lemma FremdesNetzUnberuehrt(e: Einstellung, z: Inhalt, key: Schluessel, v: int, absender: Schluessel,
                              key': Schluessel, absender': Schluessel)
    requires var z' := Speichern(e, z, key, v, absender).0;
      && key' != key && (|z.m| >= e.max || |z'.m| < e.max)
      && (z'.g.Some? ==> |z'.g.wert| < e.grobMax)
    requires Fremd(e.netzVon(absender), e.netzVon(absender'))
    ensures Lesen(e, Speichern(e, z, key, v, absender).0, key', absender') == Lesen(e, z, key', absender')
  {
    hide Anzahl48;
    var z' := Speichern(e, z, key, v, absender).0;
    if z'.g.Some? && z' != z && z'.m == z.m {
      var g, n := z.g.wert, e.netzVon(absender).wert;
      GroesseMit(g, JePraefix(g, n), v);
      if e.netzVon(absender').Some? && e.netzVon(absender').wert.V6? {
        Anzahl48Mit(g, JePraefix(g, n), v, e.netzVon(absender').wert.praefix);
      }
    }
  }

  // ---- where a sender's value stands ----------------------------------------------------------------

  /** In the map, in the overflow map under a network's key, or nowhere. */
  datatype Ort = Hier | ImGroben(n: Schluessel) | Nirgends

  /** n is the key that the network counts under: an IPv4 /24; a /48 that counts already or whose /32 has
      fewer than 64 of them; or else the /32. */
  predicate ZaehltUnter(g: map<Schluessel, int>, netz: Netz, n: Schluessel) {
    match netz
    case V4(a) => n == Netz24(a)
    case V6(p, a) =>
      var frei := Netz48(p, a) in g || |set k | k in g && k.Netz48? && k.praefix == p| < 64;
      n == if frei then Netz48(p, a) else Netz32(p)
  }

  ghost predicate StehtAn(e: Einstellung, z: Inhalt, key: Schluessel, absender: Schluessel, o: Ort) {
    match o
    case Hier => key in z.m || |z.m| < e.max
    case ImGroben(n) =>
      && key !in z.m && |z.m| >= e.max && z.g.Some? && e.netzVon(absender).Some?
      && ZaehltUnter(z.g.wert, e.netzVon(absender).wert, n) && (n in z.g.wert || |z.g.wert| < e.grobMax)
    case Nirgends =>
      && key !in z.m && |z.m| >= e.max
      && (z.g.Some? && e.netzVon(absender).Some? ==>
            forall n :: ZaehltUnter(z.g.wert, e.netzVon(absender).wert, n) ==>
              n !in z.g.wert && |z.g.wert| >= e.grobMax)
  }

  function Wert(m: map<Schluessel, int>, k: Schluessel): Option<int> { if k in m then Some(m[k]) else None }

  /** m' is m but for key k, which holds v. */
  ghost predicate NurGeaendert(m: map<Schluessel, int>, m': map<Schluessel, int>, k: Schluessel, v: Option<int>) {
    forall x :: Wert(m', x) == if x == k then v else Wert(m, x)
  }

  /** z' is z but for the value at one place, which is v; nothing changes nowhere. */
  ghost predicate NurDort(z: Inhalt, z': Inhalt, o: Ort, key: Schluessel, v: Option<int>) {
    match o
    case Hier => NurGeaendert(z.m, z'.m, key, v) && z'.g == z.g
    case ImGroben(n) => z'.m == z.m && z.g.Some? && z'.g.Some? && NurGeaendert(z.g.wert, z'.g.wert, n, v)
    case Nirgends => z' == z
  }

  /** What stands at a place. */
  function Dort(z: Inhalt, o: Ort, key: Schluessel): Option<int> {
    match o
    case Hier => Wert(z.m, key)
    case ImGroben(n) => if z.g.Some? then Wert(z.g.wert, n) else None
    case Nirgends => None
  }

  lemma PraefixGenau(g: map<Schluessel, int>, netz: Netz, n: Schluessel)
    ensures ZaehltUnter(g, netz, n) <==> n == JePraefix(g, netz)
  {
    if netz.V6? {
      assert Netze48(g, netz.praefix) == set k | k in g && k.Netz48? && k.praefix == netz.praefix;
    }
  }

  /** Each key of each sender has one place. A store writes there and nowhere else, and is refused exactly
      if there is none; a read tells what stands there, and without a place the value when full;
      read-or-store does what there was, and stores if there was nothing. */
  lemma JederSchluesselEinOrt(e: Einstellung, z: Inhalt, key: Schluessel, v: int, absender: Schluessel)
    returns (o: Ort)
    ensures StehtAn(e, z, key, absender, o) && forall o' :: StehtAn(e, z, key, absender, o') ==> o' == o
    ensures var (z', ok) := Speichern(e, z, key, v, absender);
      (ok <==> !o.Nirgends?) && NurDort(z, z', o, key, Some(v))
    ensures Lesen(e, z, key, absender) == if o.Nirgends? then e.wertWennVoll else Dort(z, o, key)
    ensures absender == key ==>
      var (z', r) := LesenOderSpeichern(e, z, key, v); var alt := Dort(z, o, key);
      && r == (if o.Nirgends? then None else if alt.Some? then alt else Some(v))
      && (if alt.Some? then z' == z else NurDort(z, z', o, key, Some(v)))
  {
    hide JePraefix, ZaehltUnter;
    o := Hier;
    if key !in z.m && |z.m| >= e.max {
      o := Nirgends;
      if z.g.Some? && e.netzVon(absender).Some? {
        var netz := e.netzVon(absender).wert;
        var n := JePraefix(z.g.wert, netz);
        forall x ensures ZaehltUnter(z.g.wert, netz, x) <==> x == n { PraefixGenau(z.g.wert, netz, x); }
        if n in z.g.wert || |z.g.wert| < e.grobMax { o := ImGroben(n); }
      }
    }
  }

  /** A deleted key is gone from the map, or if it was not there from the overflow map; every other key stays. */
  lemma LoeschenGenau(z: Inhalt, key: Schluessel)
    ensures var z' := Loeschen(z, key);
      && NurGeaendert(z.m, z'.m, key, None) && (z'.g.Some? <==> z.g.Some?)
      && (key in z.m ==> z'.g == z.g)
      && (key !in z.m && z.g.Some? ==> NurGeaendert(z.g.wert, z'.g.wert, key, None))
  {
  }

  // ---- the program ---------------------------------------------------------------------------------

  class Karte {
    const max: nat
    const netzVon: Schluessel -> Option<Netz>
    const wertWennVoll: Option<int>
    const grob: Karte?
    const mitPraefixen: bool
    var m: map<Schluessel, int>
    var anzahl: int
    var praefixe: map<int, int>

    /** The counters agree with the keys. */
    ghost predicate Gezaehlt()
      reads this
    {
      && anzahl == |m|
      && (mitPraefixen ==> ZaehltPraefixe(m, praefixe))
    }

    ghost predicate Valid()
      reads this, grob
    {
      && Gezaehlt() && (mitPraefixen ==> grob == null)
      && (grob != null ==>
            && grob != this && grob.Gezaehlt() && grob.grob == null && grob.mitPraefixen
            && grob.wertWennVoll == wertWennVoll)
    }

    ghost function Stand(): Inhalt
      reads this, grob
    {
      Inhalt(m, if grob == null then None else Some(grob.m))
    }

    ghost function Werte(): Einstellung {
      Einstellung(max, if grob == null then 0 else grob.max, netzVon, wertWennVoll)
    }

    constructor OhneNetz(max: nat, netzVon: Schluessel -> Option<Netz>, wertWennVoll: Option<int>)
      ensures Valid() && Stand() == Inhalt(map[], None) && grob == null && !mitPraefixen
      ensures this.max == max && this.netzVon == netzVon && this.wertWennVoll == wertWennVoll
    {
      this.max, this.netzVon, this.wertWennVoll, grob, mitPraefixen := max, netzVon, wertWennVoll, null, false;
      m, anzahl, praefixe := map[], 0, map[];
    }

    constructor Ueberlauf(netzVon: Schluessel -> Option<Netz>, wertWennVoll: Option<int>)
      ensures Valid() && Stand() == Inhalt(map[], None) && grob == null && mitPraefixen
      ensures max == GROB_HOECHSTENS && this.netzVon == netzVon && this.wertWennVoll == wertWennVoll
    {
      max, this.netzVon, this.wertWennVoll, grob, mitPraefixen := GROB_HOECHSTENS, netzVon, wertWennVoll, null, true;
      m, anzahl, praefixe := map[], 0, map[];
      new;
      forall p ensures Anzahl48(m, p) == 0 { assert Netze48(m, p) == {}; }
    }

    constructor (max: nat, netzVon: Schluessel -> Option<Netz>, wertWennVoll: Option<int>)
      ensures Valid() && Stand() == Inhalt(map[], Some(map[])) && fresh(grob)
      ensures Werte() == Einstellung(max, GROB_HOECHSTENS, netzVon, wertWennVoll)
    {
      var g := new Karte.Ueberlauf(netzVon, wertWennVoll);
      this.max, this.netzVon, this.wertWennVoll, grob, mitPraefixen := max, netzVon, wertWennVoll, g, false;
      m, anzahl, praefixe := map[], 0, map[];
    }

    /** One key more or less. */
    method Zaehlen(key: Schluessel, plus: int)
      requires plus == 1 || plus == -1
      modifies `anzahl, `praefixe
      ensures anzahl == old(anzahl) + plus
      ensures praefixe == if mitPraefixen then Gerechnet(old(praefixe), key, plus) else old(praefixe)
    {
      anzahl := anzahl + plus;
      if !mitPraefixen || !key.Netz48? { return; }
      var p := key.praefix;
      if p !in praefixe { praefixe := praefixe[p := 0]; }
      praefixe := praefixe[p := praefixe[p] + plus];
      if praefixe[p] <= 0 { praefixe := praefixe - {p}; }
    }

    /** Puts a key, new or not. */
    method Setze(key: Schluessel, v: int)
      requires Gezaehlt()
      modifies this
      ensures Gezaehlt() && m == old(m)[key := v]
    {
      hide ZaehltPraefixe, Gerechnet;
      var geladen := key in m;
      GroesseMit(m, key, v);
      if mitPraefixen { PraefixeMit(m, praefixe, key, v); }
      m := m[key := v];
      if !geladen { Zaehlen(key, 1); }
    }

    method Entferne(key: Schluessel)
      requires Gezaehlt() && key in m
      modifies this
      ensures Gezaehlt() && m == old(m) - {key}
    {
      hide ZaehltPraefixe, Gerechnet;
      GroesseOhne(m, key);
      if mitPraefixen { PraefixeOhne(m, praefixe, key); }
      m := m - {key};
      Zaehlen(key, -1);
    }

    /** The /48 while it counts already or its /32 has room, else the /32. */
    method JePraefixHier(n: Netz) returns (k: Schluessel)
      requires Gezaehlt() && mitPraefixen
      ensures k == JePraefix(m, n)
    {
      hide Anzahl48;
      if n.V4? { return Netz24(n.netz); }
      k := Netz48(n.praefix, n.netz);
      if k in m { return; }
      if n.praefix in praefixe && praefixe[n.praefix] >= JE_PRAEFIX { return Netz32(n.praefix); }
    }

    method AusweichFuer(absender: Schluessel) returns (n: Option<Schluessel>)
      requires Valid()
      ensures n == Ausweich(Werte(), Stand(), absender) && (n.Some? ==> grob != null)
    {
      if grob == null || netzVon(absender).None? { return None; }
      var k := grob.JePraefixHier(netzVon(absender).wert);
      n := Some(k);
    }

    method LoadUeber(key: Schluessel, absender: Schluessel) returns (r: Option<int>)
      requires Valid()
      ensures r == Lesen(Werte(), Stand(), key, absender)
      decreases if grob == null then 0 else 1
    {
      if key in m { return Some(m[key]); }
      if anzahl < max { return None; }
      var n := AusweichFuer(absender);
      if n.Some? {
        r := grob.LoadUeber(n.wert, n.wert);
        return;
      }
      r := wertWennVoll;
    }

    method StoreUeber(key: Schluessel, v: int, absender: Schluessel) returns (ok: bool)
      requires Valid()
      modifies this, grob
      ensures Valid()
      ensures (Stand(), ok) == Speichern(Werte(), old(Stand()), key, v, absender)
      decreases if grob == null then 0 else 1
    {
      hide Gezaehlt, Ausweich, Speichern;
      assert anzahl == |m| by { Zaehlerstand(); }
      if key !in m && anzahl >= max {
        var n := AusweichFuer(absender);
        if n.Some? {
          ghost var z := Stand();
          SpeichernImGroben(Werte(), grob.Werte(), z, key, v, absender, n.wert);
          ok := grob.StoreUeber(n.wert, v, n.wert);
          return;
        }
        KeinPlatz(Werte(), Stand(), key, v, absender);
        return false;
      }
      Platz(Werte(), Stand(), key, v, absender);
      Setze(key, v);
      ok := true;
    }

    method LoadOrStore(key: Schluessel, v: int) returns (r: Option<int>)
      requires Valid()
      modifies this, grob
      ensures Valid()
      ensures (Stand(), r) == LesenOderSpeichern(Werte(), old(Stand()), key, v)
      decreases if grob == null then 0 else 1
    {
      hide JePraefix, Anzahl48, Gezaehlt;
      assert anzahl == |m| by { Zaehlerstand(); }
      if key in m { return Some(m[key]); }
      if anzahl >= max {
        var n := AusweichFuer(key);
        if n.Some? {
          LesenOderSpeichernImGroben(Werte(), grob.Werte(), Stand(), key, v, n.wert);
          r := grob.LoadOrStore(n.wert, v);
          return;
        }
        return None;
      }
      Setze(key, v);
      r := Some(v);
    }

    method Delete(key: Schluessel)
      requires Valid()
      modifies this, grob
      ensures Valid()
      ensures Stand() == Loeschen(old(Stand()), key)
      decreases if grob == null then 0 else 1
    {
      hide Anzahl48, Gezaehlt;
      if key in m {
        Entferne(key);
        return;
      }
      if grob != null {
        assert grob.m - {key} == if key in grob.m then grob.m - {key} else grob.m;
        grob.Delete(key);
      }
    }

    lemma Zaehlerstand()
      requires Gezaehlt()
      ensures anzahl == |m|
    {
    }
  }
}
