/**
 Fraud proofs: the touched accounts and receipts of a block with Merkle proofs
 against the root before it, checked by running the block on just those.
 */
module Fehlerbeweis {
  import opened Typen
  import opened Uebergang
  import opened Gleichlauf
  import opened Bereich
  import S = Smt

  datatype BewiesenesKonto = BewiesenesKonto(addr: string, konto: Konto, bw: S.Beweis)
  datatype BewieseneQuittung = BewieseneQuittung(id: Hash, verbraucht: bool, bw: S.Beweis)
  datatype Vorzustand = Vorzustand(wurzel: Hash, konten: seq<BewiesenesKonto>, quittungen: seq<BewieseneQuittung>)
  datatype Beweisstueck = Beweisstueck(block: BereichsBlock, vor: Vorzustand)

  /** Ungueltig: the proof is worth nothing. Gueltig(falsch): it decides whether the block is wrong. */
  datatype Urteil = Ungueltig | Gueltig(falsch: bool)

  function KontoBeleg(w: Welt, k: BewiesenesKonto): S.Beleg {
    S.Beleg(KontoSchluessel(w, k.addr), KontoHash(w, k.addr, k.konto), k.bw)
  }

  function QuittungBeleg(w: Welt, q: BewieseneQuittung): S.Beleg {
    S.Beleg(QuittungSchluessel(w, q.id), if q.verbraucht then VerbrauchtWert(w) else NULL, q.bw)
  }

  function Belege(w: Welt, v: Vorzustand): seq<S.Beleg> {
    seq(|v.konten|, i requires 0 <= i < |v.konten| => KontoBeleg(w, v.konten[i]))
    + seq(|v.quittungen|, i requires 0 <= i < |v.quittungen| => QuittungBeleg(w, v.quittungen[i]))
  }

  /** Later entries win. */
  function KontenAus(ks: seq<BewiesenesKonto>): map<string, Konto> {
    if ks == [] then map[] else var k := ks[|ks| - 1]; KontenAus(ks[..|ks| - 1])[k.addr := k.konto]
  }

  function QuittungenAus(qs: seq<BewieseneQuittung>): map<Hash, bool> {
    if qs == [] then map[] else var q := qs[|qs| - 1]; QuittungenAus(qs[..|qs| - 1])[q.id := q.verbraucht]
  }

  function BeweisZustand(w: Welt, v: Vorzustand): Option<Zustand> {
    match S.TeilbaumAus(w, v.wurzel, Belege(w, v))
    case None => None
    case Some(t) => Some(Bewiesen(t, KontenAus(v.konten), QuittungenAus(v.quittungen)))
  }

  function Kontext(w: Welt, b: BereichsBlock, r: Rahmen): Block { Block(b.bereich, r, EingabenID(w, b)) }

  /** The block run on z under r. */
  function Rechne(w: Welt, z: Zustand, b: BereichsBlock, r: Rahmen): Schritt {
    Ausfuehren(w, Kontext(w, b, r), z, b.eingaben)
  }

  /** The outcome of a run is what the block claims. */
  predicate Trifft(b: BereichsBlock, s: Schritt) {
    && s.Weiter?
    && S.Wurzel(s.lauf.z.baum) == b.nach
    && s.lauf.t == b.teilsumme
    && s.lauf.ausgang == b.ausgang
  }

  function Pruefe(w: Welt, fb: Beweisstueck, r: Rahmen): Urteil {
    if fb.vor.wurzel != fb.block.vor then Ungueltig
    else match BeweisZustand(w, fb.vor)
      case None => Ungueltig
      case Some(z) =>
        var s := Rechne(w, z, fb.block, r);
        if s.Abbruch? && s.fehler == FehltImBeweis then Ungueltig else Gueltig(!Trifft(fb.block, s))
  }

  /** The frame a block carries never decides about it; nor does what its head adds to the outcome. */
  lemma FremderRahmenEgal(w: Welt, fb: Beweisstueck, r: Rahmen, x: Rahmen, geldmenge: Int64, menschen: int)
    ensures var b' := fb.block.(rahmen := x, geldmenge := geldmenge, menschen := menschen);
      Pruefe(w, fb.(block := b'), r) == Pruefe(w, fb, r)
  {
    hide Ausfuehren, BeweisZustand;
  }

  // ---- consistent full states -----------------------------------------------------

  /** Tree and account table of a full state describe the same contents, as far as U names them. */
  ghost predicate Stimmig(w: Welt, U: iset<Urbild>, v: Zustand) {
    && v.Voll? && S.Kanonisch(w, v.baum)
    && (forall a :: KontoSchluesselU(a) in U ==>
          S.Wert(v.baum.werte, KontoSchluessel(w, a)) == KontoHash(w, a, Inhalt(v.konten, a)))
    && (forall id :: QuittungSchluesselU(id) in U ==>
          S.Wert(v.baum.werte, QuittungSchluessel(w, id)) in {NULL, VerbrauchtWert(w)})
  }

  lemma NeuStimmig(w: Welt, U: iset<Urbild>)
    ensures Stimmig(w, U, NEU)
  {
    S.LeererBaumKanonisch(w);
  }

  lemma SetzeKontoStimmig(w: Welt, U: iset<Urbild>, v: Zustand, a: string, k: Konto)
    requires Sicher(w, U) && Stimmig(w, U, v) && KontoSchluesselU(a) in U
    ensures Stimmig(w, U, SetzeKonto(w, v, a, k))
  {
    hide S.Setze, S.Kanonisch;
    var v' := SetzeKonto(w, v, a, k);
    var s, h := KontoSchluessel(w, a), KontoHash(w, a, k);
    S.SetzeKanonisch(w, v.baum, s, h);
    forall a' | KontoSchluesselU(a') in U
      ensures S.Wert(v'.baum.werte, KontoSchluessel(w, a')) == KontoHash(w, a', Inhalt(v'.konten, a'))
    {
      S.SetzeWert(w, v.baum, s, h, KontoSchluessel(w, a'));
      assert a' != a ==> KontoSchluessel(w, a') != s;
    }
    forall id | QuittungSchluesselU(id) in U
      ensures S.Wert(v'.baum.werte, QuittungSchluessel(w, id)) in {NULL, VerbrauchtWert(w)}
    {
      S.SetzeWert(w, v.baum, s, h, QuittungSchluessel(w, id));
      assert QuittungSchluessel(w, id) != s;
    }
  }

  lemma VerbraucheStimmig(w: Welt, U: iset<Urbild>, v: Zustand, id: Hash)
    requires Sicher(w, U) && Stimmig(w, U, v) && QuittungSchluesselU(id) in U
    ensures Stimmig(w, U, Verbrauche(w, v, id))
  {
    hide S.Setze, S.Kanonisch;
    var v' := Verbrauche(w, v, id);
    var s, h := QuittungSchluessel(w, id), VerbrauchtWert(w);
    S.SetzeKanonisch(w, v.baum, s, h);
    forall a | KontoSchluesselU(a) in U
      ensures S.Wert(v'.baum.werte, KontoSchluessel(w, a)) == KontoHash(w, a, Inhalt(v'.konten, a))
    {
      S.SetzeWert(w, v.baum, s, h, KontoSchluessel(w, a));
      assert KontoSchluessel(w, a) != s;
    }
    forall id' | QuittungSchluesselU(id') in U
      ensures S.Wert(v'.baum.werte, QuittungSchluessel(w, id')) in {NULL, VerbrauchtWert(w)}
    {
      S.SetzeWert(w, v.baum, s, h, QuittungSchluessel(w, id'));
    }
  }

  lemma TueStimmig(w: Welt, U: iset<Urbild>, b: Block, l: Uebergang.Lauf, e: Eingabe)
    requires Sicher(w, U) && Stimmig(w, U, l.z) && EingabeBenannt(e, U)
    ensures Stimmig(w, U, Tue(w, b, l, e).lauf.z)
  {
    hide Stimmig, SetzeKonto, Verbrauche, Sicher, Nachgetragen, Belastet, Gebuehr, Gekappt;
    forall z, a, k | Stimmig(w, U, z) && KontoSchluesselU(a) in U ensures Stimmig(w, U, SetzeKonto(w, z, a, k)) {
      SetzeKontoStimmig(w, U, z, a, k);
    }
    match e
    case Einloesung(q) => VerbraucheStimmig(w, U, l.z, q.id);
    case _ =>
  }

  /** Executing a block keeps a consistent state consistent. */
  lemma {:induction false} FolgeStimmig(w: Welt, U: iset<Urbild>, b: Block, l: Uebergang.Lauf, plan: seq<Eingabe>)
    requires Sicher(w, U) && Stimmig(w, U, l.z)
    requires forall e :: e in plan ==> EingabeBenannt(e, U)
    ensures Stimmig(w, U, Folge(w, b, l, plan).lauf.z)
    decreases |plan|
  {
    if plan != [] {
      assert EingabeBenannt(plan[0], U);
      TueStimmig(w, U, b, l, plan[0]);
      if Tue(w, b, l, plan[0]).Weiter? {
        FolgeStimmig(w, U, b, Tue(w, b, l, plan[0]).lauf, plan[1..]);
      }
    }
  }

  // ---- what a proof can claim -------------------------------------------------------

  /** Every claim of v about the full state z is true. */
  ghost predicate Wahr(w: Welt, z: Zustand, v: Vorzustand) {
    && (forall i :: 0 <= i < |v.konten| ==> KontoWahr(w, z, v.konten[i]))
    && (forall i :: 0 <= i < |v.quittungen| ==> QuittungWahr(w, z, v.quittungen[i]))
  }

  ghost predicate KontoWahr(w: Welt, z: Zustand, k: BewiesenesKonto) {
    && k.konto == Inhalt(z.konten, k.addr)
    && S.Entpacke(k.bw) == Some(S.GeschwisterVon(z.baum.innen, KontoSchluessel(w, k.addr)))
  }

  ghost predicate QuittungWahr(w: Welt, z: Zustand, q: BewieseneQuittung) {
    && q.verbraucht == Eingeloest(w, z.baum, q.id)
    && S.Entpacke(q.bw) == Some(S.GeschwisterVon(z.baum.innen, QuittungSchluessel(w, q.id)))
  }

  ghost predicate KontoInhaltBenannt(U: iset<Urbild>, a: string, k: Konto) {
    KontoSchluesselU(a) in U && (k == LEERES_KONTO || KontoU(a, k) in U)
  }

  /** U names the accounts and receipts of v. */
  ghost predicate Genannt(U: iset<Urbild>, v: Vorzustand) {
    && (forall i :: 0 <= i < |v.konten| ==> KontoSchluesselU(v.konten[i].addr) in U)
    && (forall i :: 0 <= i < |v.quittungen| ==> QuittungSchluesselU(v.quittungen[i].id) in U)
  }

  /** U names every hash input of the full state z and of the claims v. */
  ghost predicate AllesBenannt(w: Welt, U: iset<Urbild>, z: Zustand, v: Vorzustand) {
    && S.BaumUrbilder(w, z.baum.werte, U)
    && VerbrauchtU in U
    && (forall i :: 0 <= i < |v.konten| ==>
          && KontoInhaltBenannt(U, v.konten[i].addr, v.konten[i].konto)
          && KontoInhaltBenannt(U, v.konten[i].addr, Inhalt(z.konten, v.konten[i].addr))
          && S.BelegBenannt(w, U, KontoBeleg(w, v.konten[i])))
    && (forall i :: 0 <= i < |v.quittungen| ==>
          && QuittungSchluesselU(v.quittungen[i].id) in U
          && S.BelegBenannt(w, U, QuittungBeleg(w, v.quittungen[i])))
  }

  lemma KontoBelegWahr(w: Welt, U: iset<Urbild>, z: Zustand, k: BewiesenesKonto)
    requires Sicher(w, U) && Stimmig(w, U, z)
    requires KontoInhaltBenannt(U, k.addr, k.konto) && KontoInhaltBenannt(U, k.addr, Inhalt(z.konten, k.addr))
    ensures S.BelegEhrlich(w, z.baum, KontoBeleg(w, k)) <==> KontoWahr(w, z, k)
  {
  }

  lemma QuittungBelegWahr(w: Welt, U: iset<Urbild>, z: Zustand, q: BewieseneQuittung)
    requires Sicher(w, U) && Stimmig(w, U, z) && VerbrauchtU in U && QuittungSchluesselU(q.id) in U
    ensures S.BelegEhrlich(w, z.baum, QuittungBeleg(w, q)) <==> QuittungWahr(w, z, q)
  {
  }

  lemma BelegeWahr(w: Welt, U: iset<Urbild>, z: Zustand, v: Vorzustand)
    requires Sicher(w, U) && Stimmig(w, U, z) && AllesBenannt(w, U, z, v)
    ensures (forall i :: 0 <= i < |Belege(w, v)| ==> S.BelegEhrlich(w, z.baum, Belege(w, v)[i])) <==> Wahr(w, z, v)
  {
    hide S.BelegEhrlich, KontoWahr, QuittungWahr, Stimmig, Sicher, KontoBeleg, QuittungBeleg, S.BelegBenannt,
      S.BaumUrbilder;
    var n := |v.konten|;
    forall i | 0 <= i < n ensures S.BelegEhrlich(w, z.baum, Belege(w, v)[i]) <==> KontoWahr(w, z, v.konten[i]) {
      KontoBelegWahr(w, U, z, v.konten[i]);
    }
    forall i | 0 <= i < |v.quittungen|
      ensures S.BelegEhrlich(w, z.baum, Belege(w, v)[n + i]) <==> QuittungWahr(w, z, v.quittungen[i])
    {
      QuittungBelegWahr(w, U, z, v.quittungen[i]);
    }
  }

  lemma {:induction false} KontenAusWahr(w: Welt, z: Zustand, ks: seq<BewiesenesKonto>)
    requires forall i :: 0 <= i < |ks| ==> KontoWahr(w, z, ks[i])
    ensures forall a :: a in KontenAus(ks) ==> KontenAus(ks)[a] == Inhalt(z.konten, a)
    ensures KontenAus(ks).Keys == set i | 0 <= i < |ks| :: ks[i].addr
  {
    if ks != [] {
      var n := |ks| - 1;
      KontenAusWahr(w, z, ks[..n]);
      assert KontoWahr(w, z, ks[n]);
      assert forall i :: 0 <= i < n ==> ks[..n][i] == ks[i];
    }
  }

  lemma {:induction false} QuittungAusWahr(w: Welt, z: Zustand, qs: seq<BewieseneQuittung>, id: Hash)
    requires (forall i :: 0 <= i < |qs| ==> QuittungWahr(w, z, qs[i])) && id in QuittungenAus(qs)
    ensures QuittungenAus(qs)[id] == Eingeloest(w, z.baum, id)
  {
    hide Eingeloest;
    var n := |qs| - 1;
    assert QuittungWahr(w, z, qs[n]);
    if qs[n].id != id {
      assert forall i :: 0 <= i < n ==> qs[..n][i] == qs[i];
      QuittungAusWahr(w, z, qs[..n], id);
    }
  }

  lemma {:induction false} QuittungAusKennt(qs: seq<BewieseneQuittung>, id: Hash)
    ensures id in QuittungenAus(qs) <==> exists i :: 0 <= i < |qs| && qs[i].id == id
  {
    if qs != [] {
      var n := |qs| - 1;
      QuittungAusKennt(qs[..n], id);
      assert forall i :: 0 <= i < n ==> qs[..n][i] == qs[i];
    }
  }

  lemma QuittungenAusWahr(w: Welt, z: Zustand, qs: seq<BewieseneQuittung>)
    requires forall i :: 0 <= i < |qs| ==> QuittungWahr(w, z, qs[i])
    ensures forall id :: id in QuittungenAus(qs) ==> QuittungenAus(qs)[id] == Eingeloest(w, z.baum, id)
    ensures QuittungenAus(qs).Keys == set i | 0 <= i < |qs| :: qs[i].id
  {
    hide Eingeloest, QuittungWahr, QuittungenAus;
    forall id | id in QuittungenAus(qs) ensures QuittungenAus(qs)[id] == Eingeloest(w, z.baum, id) {
      QuittungAusWahr(w, z, qs, id);
    }
    forall id ensures id in QuittungenAus(qs) <==> exists i :: 0 <= i < |qs| && qs[i].id == id {
      QuittungAusKennt(qs, id);
    }
  }

  function Adressen(v: Vorzustand): set<string> { set i | 0 <= i < |v.konten| :: v.konten[i].addr }

  function Ids(v: Vorzustand): set<Hash> { set i | 0 <= i < |v.quittungen| :: v.quittungen[i].id }

  /** From true claims the proof state is built, and it is an excerpt of the full state. */
  lemma WahrerAuszug(w: Welt, U: iset<Urbild>, z: Zustand, v: Vorzustand)
    requires Stimmig(w, U, z) && Genannt(U, v) && Wahr(w, z, v)
    requires v.wurzel == S.Wurzel(z.baum)
    ensures BeweisZustand(w, v).Some? && Auszug(w, U, BeweisZustand(w, v).wert, z)
    ensures var p := BeweisZustand(w, v).wert; p.konten.Keys == Adressen(v) && p.quittungen.Keys == Ids(v)
  {
    hide Stimmig, S.TeilbaumAus, S.Stimmt, Belege, KontoWahr, QuittungWahr, Eingeloest;
    WahrerTeilbaum(w, U, z, v);
    KontenAusWahr(w, z, v.konten);
    QuittungenAusWahr(w, z, v.quittungen);
    var p := BeweisZustand(w, v).wert;
    SchluesselGleich(w, v, p);
    assert Benannt(p, U) && z.Voll? by { NamenAus(w, U, z, v, p); }
  }

  lemma WahrerTeilbaum(w: Welt, U: iset<Urbild>, z: Zustand, v: Vorzustand)
    requires Stimmig(w, U, z) && Genannt(U, v) && Wahr(w, z, v)
    requires v.wurzel == S.Wurzel(z.baum)
    ensures var t := S.TeilbaumAus(w, v.wurzel, Belege(w, v));
      t.Some? && S.Stimmt(t.wert, z.baum, S.Schluessel(Belege(w, v)))
  {
    hide S.TeilbaumAus, S.Stimmt, S.Kanonisch, KontoWahr, QuittungWahr, KontoBeleg, QuittungBeleg, S.BelegEhrlich;
    var n := |v.konten|;
    forall i | 0 <= i < |Belege(w, v)| ensures S.BelegEhrlich(w, z.baum, Belege(w, v)[i]) {
      if i < n { KontoWahrDannEhrlich(w, U, z, v.konten[i]); }
      else { QuittungWahrDannEhrlich(w, U, z, v.quittungen[i - n]); }
    }
    S.EhrlicherTeilbaum(w, z.baum, Belege(w, v));
  }

  lemma KontoWahrDannEhrlich(w: Welt, U: iset<Urbild>, z: Zustand, k: BewiesenesKonto)
    requires Stimmig(w, U, z) && KontoSchluesselU(k.addr) in U && KontoWahr(w, z, k)
    ensures S.BelegEhrlich(w, z.baum, KontoBeleg(w, k))
  {
  }

  lemma QuittungWahrDannEhrlich(w: Welt, U: iset<Urbild>, z: Zustand, q: BewieseneQuittung)
    requires Stimmig(w, U, z) && QuittungSchluesselU(q.id) in U && QuittungWahr(w, z, q)
    ensures S.BelegEhrlich(w, z.baum, QuittungBeleg(w, q))
  {
  }

  lemma NamenAus(w: Welt, U: iset<Urbild>, z: Zustand, v: Vorzustand, p: Zustand)
    requires p.Bewiesen? && p.konten.Keys == Adressen(v) && p.quittungen.Keys == Ids(v)
    requires Stimmig(w, U, z) && Genannt(U, v)
    ensures Benannt(p, U) && z.Voll?
  {
  }

  lemma SchluesselGleich(w: Welt, v: Vorzustand, p: Zustand)
    requires p.Bewiesen?
    requires p.konten.Keys == Adressen(v) && p.quittungen.Keys == Ids(v)
    ensures S.Schluessel(Belege(w, v)) == Gleichlauf.Schluessel(w, p)
  {
    var bs, n := Belege(w, v), |v.konten|;
    forall k | k in Gleichlauf.Schluessel(w, p) ensures k in S.Schluessel(bs) {
      if a :| a in p.konten && k == KontoSchluessel(w, a) {
        var i :| 0 <= i < n && v.konten[i].addr == a;
        assert bs[i].k == k;
      } else {
        var id :| id in p.quittungen && k == QuittungSchluessel(w, id);
        var i :| 0 <= i < |v.quittungen| && v.quittungen[i].id == id;
        assert bs[n + i].k == k;
      }
    }
    forall k | k in S.Schluessel(bs) ensures k in Gleichlauf.Schluessel(w, p) {
      var i :| 0 <= i < |bs| && bs[i].k == k;
      if i < n { assert v.konten[i].addr in p.konten.Keys; }
      else { assert v.quittungen[i - n].id in p.quittungen.Keys; }
    }
  }

  // ---- the verdict --------------------------------------------------------------------

  /** The run on the full state reads only what v proves. */
  predicate Genuegt(v: Vorzustand, l: Uebergang.Lauf) {
    l.beruehrt <= Adressen(v) && forall id :: id in l.quittungen ==> id in Ids(v)
  }

  /** The verdict on any proof with at least one claim, against a node that holds the
      state before the block: worthless if it starts from another root, claims something
      untrue or leaves out something the block reads; otherwise it finds the block wrong
      exactly when the block is wrong. */
  lemma UrteilGenau(w: Welt, U: iset<Urbild>, z: Zustand, fb: Beweisstueck, r: Rahmen)
    requires Sicher(w, U) && Stimmig(w, U, z) && AllesBenannt(w, U, z, fb.vor)
    requires fb.block.vor == S.Wurzel(z.baum)
    requires fb.vor.konten != [] || fb.vor.quittungen != []
    ensures Pruefe(w, fb, r) ==
      if fb.vor.wurzel == fb.block.vor && Wahr(w, z, fb.vor) && Genuegt(fb.vor, Rechne(w, z, fb.block, r).lauf)
      then Gueltig(!Trifft(fb.block, Rechne(w, z, fb.block, r))) else Ungueltig
  {
    hide Sicher, Stimmig, AllesBenannt, Genannt, Wahr, Rechne, Trifft, BeweisZustand, Auszug, S.Wurzel, Adressen, Ids;
    if fb.vor.wurzel == fb.block.vor {
      AuszugGenau(w, U, z, fb.vor);
      if Wahr(w, z, fb.vor) {
        assert Genannt(U, fb.vor) by { NamenGenannt(w, U, z, fb.vor); }
        WahrerAuszug(w, U, z, fb.vor);
        var p := BeweisZustand(w, fb.vor).wert;
        AuszugNichtLeer(w, U, z, fb.vor, p);
        UrteilAufAuszug(w, U, z, fb, r, p);
      }
    }
  }

  lemma NamenGenannt(w: Welt, U: iset<Urbild>, z: Zustand, v: Vorzustand)
    requires AllesBenannt(w, U, z, v)
    ensures Genannt(U, v)
  {
    hide S.BelegBenannt, S.BaumUrbilder, KontoBeleg, QuittungBeleg;
  }

  lemma AuszugNichtLeer(w: Welt, U: iset<Urbild>, z: Zustand, v: Vorzustand, p: Zustand)
    requires v.konten != [] || v.quittungen != []
    requires Auszug(w, U, p, z) && p.konten.Keys == Adressen(v)
    requires p.Bewiesen? ==> p.quittungen.Keys == Ids(v)
    ensures p.Bewiesen? && Gleichlauf.Schluessel(w, p) != {}
  {
    if v.konten != [] {
      assert v.konten[0].addr in Adressen(v);
      assert KontoSchluessel(w, v.konten[0].addr) in Gleichlauf.Schluessel(w, p);
    } else {
      assert v.quittungen[0].id in Ids(v);
      assert QuittungSchluessel(w, v.quittungen[0].id) in Gleichlauf.Schluessel(w, p);
    }
  }

  lemma AuszugGenau(w: Welt, U: iset<Urbild>, z: Zustand, v: Vorzustand)
    requires Sicher(w, U) && Stimmig(w, U, z) && AllesBenannt(w, U, z, v)
    requires v.wurzel == S.Wurzel(z.baum)
    ensures BeweisZustand(w, v).Some? <==> Wahr(w, z, v)
  {
    hide Sicher, S.Kanonisch, S.TeilbaumAus, S.BelegEhrlich, S.BaumUrbilder, S.BelegBenannt, Belege, KontoWahr,
      QuittungWahr;
    BelegeWahr(w, U, z, v);
    BelegeBenannt(w, U, z, v);
    S.TeilbaumGenau(w, U, z.baum, Belege(w, v));
  }

  lemma BelegeBenannt(w: Welt, U: iset<Urbild>, z: Zustand, v: Vorzustand)
    requires AllesBenannt(w, U, z, v)
    ensures forall i :: 0 <= i < |Belege(w, v)| ==> S.BelegBenannt(w, U, Belege(w, v)[i])
  {
    hide S.BelegBenannt, KontoBeleg, QuittungBeleg;
  }

  /** Running the block on an excerpt decides it as the full state does, if nothing is missing. */
  lemma UrteilAufAuszug(w: Welt, U: iset<Urbild>, z: Zustand, fb: Beweisstueck, r: Rahmen, p: Zustand)
    requires Sicher(w, U) && Auszug(w, U, p, z)
    requires fb.vor.wurzel == fb.block.vor && BeweisZustand(w, fb.vor) == Some(p)
    requires Gleichlauf.Schluessel(w, p) != {}
    ensures Pruefe(w, fb, r) ==
      if Umfasst(Rechne(w, z, fb.block, r).lauf, p) then Gueltig(!Trifft(fb.block, Rechne(w, z, fb.block, r)))
      else Ungueltig
  {
    hide Folge, Sicher, S.Stimmt;
    var k := Kontext(w, fb.block, r);
    FolgeGenauso(w, U, k, Anfang(p), Anfang(z), Plan(fb.block.eingaben));
    var sp, sv := Rechne(w, p, fb.block, r), Rechne(w, z, fb.block, r);
    if Umfasst(sv.lauf, p) {
      assert Gleichlauf.Schluessel(w, sp.lauf.z) == Gleichlauf.Schluessel(w, p);
      S.StimmtWurzel(sp.lauf.z.baum, sv.lauf.z.baum, Gleichlauf.Schluessel(w, p));
    }
  }
}
