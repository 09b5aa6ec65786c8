/**
 What fraud proofs achieve: they never refute a correct block, save one that reads
 nothing, and the proof its maker builds decides every block that runs to its end.
 */
module Widerlegung {
  import opened Typen
  import opened Uebergang
  import opened Gleichlauf
  import opened Fehlerbeweis
  import opened Sortierung
  import S = Smt

  // ---- what a run reads -------------------------------------------------------------

  ghost predicate LiestNichts(l: Uebergang.Lauf) { l.beruehrt == {} && l.quittungen == [] }

  lemma TueOhneLesen(w: Welt, b: Block, l: Uebergang.Lauf, e: Eingabe)
    requires LiestNichts(Tue(w, b, l, e).lauf)
    ensures LiestNichts(l) && Tue(w, b, l, e).lauf.(angewandt := l.angewandt) == l
    ensures Tue(w, b, l, e).Weiter? <==>
      e.Zahlung? && w.bereichVon(e.u.von, b.rahmen.s) == b.bereich && VorabUebersprungen(w, e.u)
  {
    hide SetzeKonto, Verbrauche, Nachgetragen, Belastet, Gebuehr, Gekappt, Kappung, Nachtrag, Gedeckt;
  }

  /** Inputs that look up no account and no receipt. */
  predicate OhneZugriff(w: Welt, b: Block, plan: seq<Eingabe>) {
    forall e :: e in plan ==>
      e.Zahlung? && w.bereichVon(e.u.von, b.rahmen.s) == b.bereich && VorabUebersprungen(w, e.u)
  }

  /** A run that reads nothing changes nothing, and succeeds exactly on inputs without access. */
  lemma {:induction false} FolgeOhneLesen(w: Welt, b: Block, l: Uebergang.Lauf, plan: seq<Eingabe>)
    requires LiestNichts(Folge(w, b, l, plan).lauf)
    ensures Folge(w, b, l, plan).lauf.(angewandt := l.angewandt) == l
    ensures Folge(w, b, l, plan).Weiter? <==> OhneZugriff(w, b, plan)
    decreases |plan|
  {
    hide Tue, VorabUebersprungen;
    if plan != [] {
      var s := Tue(w, b, l, plan[0]);
      if s.Weiter? { FolgeLiestMehr(w, b, s.lauf, plan[1..]); }
      TueOhneLesen(w, b, l, plan[0]);
      if s.Weiter? {
        FolgeOhneLesen(w, b, s.lauf, plan[1..]);
        assert plan == [plan[0]] + plan[1..];
      }
    }
  }

  lemma OhneZugriffEins(w: Welt, b: Block, l: Uebergang.Lauf, plan: seq<Eingabe>)
    requires LiestNichts(l) && OhneZugriff(w, b, plan) && plan != []
    ensures OhneZugriff(w, b, plan[1..]) && LiestNichts(Tue(w, b, l, plan[0]).lauf)
  {
    hide Belaste, VorabUebersprungen;
    assert plan[0] in plan;
    forall e | e in plan[1..] ensures e in plan {}
  }

  lemma {:induction false} OhneZugriffLiestNichts(w: Welt, b: Block, l: Uebergang.Lauf, plan: seq<Eingabe>)
    requires LiestNichts(l) && OhneZugriff(w, b, plan)
    ensures LiestNichts(Folge(w, b, l, plan).lauf)
    decreases |plan|
  {
    hide Tue, OhneZugriff;
    if plan != [] {
      OhneZugriffEins(w, b, l, plan);
      OhneZugriffLiestNichts(w, b, Tue(w, b, l, plan[0]).lauf, plan[1..]);
    }
  }

  /** An input aborts the run before any account was looked up. */
  predicate AbbruchVorKonto(w: Welt, b: Block, z: Zustand, plan: seq<Eingabe>)
    decreases |plan|
  {
    plan != [] && match plan[0]
      case Einloesung(q) =>
        || q.nachBereich != b.bereich || w.bereichVon(q.an, b.rahmen.s) != b.bereich || q.betrag <= 0
        || Eingeloest(w, z.baum, q.id)
      case Anmeldung(a) => w.bereichVon(a, b.rahmen.s) != b.bereich
      case Zahlung(_, u) =>
        || w.bereichVon(u.von, b.rahmen.s) != b.bereich
        || (VorabUebersprungen(w, u) && AbbruchVorKonto(w, b, z, plan[1..]))
  }

  lemma {:induction false} AbbruchVorKontoGenau(w: Welt, b: Block, l: Uebergang.Lauf, plan: seq<Eingabe>)
    requires l.z.Voll? && l.beruehrt == {}
    ensures Folge(w, b, l, plan).Abbruch? && Folge(w, b, l, plan).lauf.beruehrt == {}
      <==> AbbruchVorKonto(w, b, l.z, plan)
    decreases |plan|
  {
    hide SetzeKonto, Verbrauche, Nachgetragen, Belastet, Gebuehr, Gekappt, Kappung, Nachtrag, Gedeckt;
    if plan != [] {
      var s := Tue(w, b, l, plan[0]);
      if s.Weiter? {
        FolgeLiestMehr(w, b, s.lauf, plan[1..]);
        if s.lauf.beruehrt == {} { AbbruchVorKontoGenau(w, b, s.lauf, plan[1..]); }
      }
    }
  }

  // ---- soundness ----------------------------------------------------------------------

  predicate OhneBelege(v: Vorzustand) { v.konten == [] && v.quittungen == [] }

  /** The verdict on a proof without claims: it always starts from the empty root,
      whatever root it names. */
  lemma LeererBeweisGenau(w: Welt, z: Zustand, fb: Beweisstueck, r: Rahmen)
    requires z.Voll? && OhneBelege(fb.vor) && fb.vor.wurzel == fb.block.vor
    ensures var s := Rechne(w, z, fb.block, r);
      Pruefe(w, fb, r) ==
        if !LiestNichts(s.lauf) then Ungueltig
        else Gueltig(!(s.Weiter? && fb.block.nach == NULL
                       && fb.block.teilsumme == NULLSUMME && fb.block.ausgang == []))
  {
    hide Folge, Plan;
    var p := Bewiesen(S.LEERER_BAUM, map[], map[]);
    assert Belege(w, fb.vor) == [];
    assert BeweisZustand(w, fb.vor) == Some(p);
    var k := Kontext(w, fb.block, r);
    assert Auszug(w, iset{}, p, z);
    FolgeGenauso(w, iset{}, k, Anfang(p), Anfang(z), Plan(fb.block.eingaben));
    var sp, sz := Rechne(w, p, fb.block, r), Rechne(w, z, fb.block, r);
    assert Umfasst(sz.lauf, p) <==> LiestNichts(sz.lauf) by {
      if sz.lauf.quittungen != [] { assert sz.lauf.quittungen[0] in sz.lauf.quittungen; }
    }
    if LiestNichts(sz.lauf) {
      FolgeOhneLesen(w, k, Anfang(p), Plan(fb.block.eingaben));
    }
  }

  /** Which proofs refute a correct block: exactly those without claims, against a block
      that reads nothing in a shard that is not empty. */
  lemma KorrekterBlockWiderlegtGenau(w: Welt, U: iset<Urbild>, z: Zustand, fb: Beweisstueck, r: Rahmen)
    requires Sicher(w, U) && Stimmig(w, U, z) && AllesBenannt(w, U, z, fb.vor)
    requires fb.block.vor == S.Wurzel(z.baum) && Trifft(fb.block, Rechne(w, z, fb.block, r))
    ensures Pruefe(w, fb, r) == Gueltig(true) <==>
      && OhneBelege(fb.vor) && fb.vor.wurzel == fb.block.vor && fb.block.vor != NULL
      && OhneZugriff(w, Kontext(w, fb.block, r), Plan(fb.block.eingaben))
  {
    hide Sicher, Stimmig, AllesBenannt, Folge, Plan, OhneZugriff, BeweisZustand;
    if !OhneBelege(fb.vor) {
      UrteilGenau(w, U, z, fb, r);
    } else if fb.vor.wurzel == fb.block.vor {
      assert z.Voll? by { StimmigVoll(w, U, z); }
      LeererBeweisGenau(w, z, fb, r);
      var k, plan := Kontext(w, fb.block, r), Plan(fb.block.eingaben);
      if LiestNichts(Rechne(w, z, fb.block, r).lauf) {
        FolgeOhneLesen(w, k, Anfang(z), plan);
      } else if OhneZugriff(w, k, plan) {
        OhneZugriffLiestNichts(w, k, Anfang(z), plan);
        assert false;
      }
    }
  }

  lemma StimmigVoll(w: Welt, U: iset<Urbild>, z: Zustand)
    requires Stimmig(w, U, z)
    ensures z.Voll? && S.Kanonisch(w, z.baum)
  {
  }

  // ---- completeness -----------------------------------------------------------------------

  /** The claims about given accounts and receipts that a full state can prove. */
  function Beweisfuer(w: Welt, z: Zustand, konten: seq<string>, quittungen: seq<Hash>): Vorzustand {
    Vorzustand(S.Wurzel(z.baum),
      seq(|konten|, i requires 0 <= i < |konten| =>
        BewiesenesKonto(konten[i], Inhalt(z.konten, konten[i]), S.Beweise(z.baum, KontoSchluessel(w, konten[i])))),
      seq(|quittungen|, i requires 0 <= i < |quittungen| =>
        BewieseneQuittung(quittungen[i], Eingeloest(w, z.baum, quittungen[i]),
                          S.Beweise(z.baum, QuittungSchluessel(w, quittungen[i])))))
  }

  /** The proof a node holding the shard builds from a trial run. An aborted run
      reports the receipts it read but no accounts. */
  ghost function Erstelle(w: Welt, z: Zustand, b: BereichsBlock, r: Rahmen): Beweisstueck {
    var s := Rechne(w, z, b, r);
    Beweisstueck(b, Beweisfuer(w, z, if s.Weiter? then SortierteListe(s.lauf.beruehrt) else [], s.lauf.quittungen))
  }

  lemma BeweisfuerWahr(w: Welt, z: Zustand, konten: seq<string>, quittungen: seq<Hash>)
    requires S.Kanonisch(w, z.baum)
    ensures Wahr(w, z, Beweisfuer(w, z, konten, quittungen))
  {
    hide S.Kanonisch;
    forall k: Hash ensures S.Entpacke(S.Beweise(z.baum, k)) == Some(S.GeschwisterVon(z.baum.innen, k)) {
      S.PackenRundreise(S.GeschwisterVon(z.baum.innen, k));
    }
  }

  /** U names whatever a run has read. */
  ghost predicate GelesenBenannt(l: Uebergang.Lauf, U: iset<Urbild>) {
    && (forall a :: a in l.beruehrt ==> KontoSchluesselU(a) in U)
    && (forall id :: id in l.quittungen ==> QuittungSchluesselU(id) in U)
  }

  lemma TueLiestBenanntes(w: Welt, U: iset<Urbild>, b: Block, l: Uebergang.Lauf, e: Eingabe)
    requires GelesenBenannt(l, U) && EingabeBenannt(e, U)
    ensures GelesenBenannt(Tue(w, b, l, e).lauf, U)
  {
    hide SetzeKonto, Verbrauche, Nachgetragen, Belastet, Gebuehr, Gekappt, Kappung, Nachtrag, Gedeckt;
  }

  lemma {:induction false} FolgeLiestBenanntes(w: Welt, U: iset<Urbild>, b: Block, l: Uebergang.Lauf,
                                               plan: seq<Eingabe>)
    requires GelesenBenannt(l, U) && forall e :: e in plan ==> EingabeBenannt(e, U)
    ensures GelesenBenannt(Folge(w, b, l, plan).lauf, U)
    decreases |plan|
  {
    if plan != [] {
      TueLiestBenanntes(w, U, b, l, plan[0]);
      if Tue(w, b, l, plan[0]).Weiter? { FolgeLiestBenanntes(w, U, b, Tue(w, b, l, plan[0]).lauf, plan[1..]); }
    }
  }

  /** The verdict on the proof its maker builds. If the trial run succeeds and looks up an
      account, the proof is accepted and finds the block wrong exactly when it is. If it
      succeeds without looking anything up, the proof is accepted but compares with the
      empty root. If it aborts, the proof is accepted, and then refutes, exactly when the
      abort came before any account was looked up. */
  lemma ErstellterBeweisGenau(w: Welt, U: iset<Urbild>, z: Zustand, b: BereichsBlock, r: Rahmen)
    requires Sicher(w, U) && Stimmig(w, U, z) && b.vor == S.Wurzel(z.baum)
    requires forall e :: e in Plan(b.eingaben) ==> EingabeBenannt(e, U)
    ensures var s, k, plan := Rechne(w, z, b, r), Kontext(w, b, r), Plan(b.eingaben);
      Pruefe(w, Erstelle(w, z, b, r), r) ==
        if s.Weiter? then
          Gueltig(if OhneZugriff(w, k, plan) then !(b.nach == NULL && b.teilsumme == NULLSUMME && b.ausgang == [])
                  else !Trifft(b, s))
        else if AbbruchVorKonto(w, k, z, plan) then Gueltig(true) else Ungueltig
  {
    hide Sicher, Stimmig, S.Wurzel, Folge, Plan, EingabeBenannt, GelesenBenannt, Trifft, BeweisZustand,
         AbbruchVorKonto, OhneZugriff, Pruefe;
    var s, k, plan := Rechne(w, z, b, r), Kontext(w, b, r), Plan(b.eingaben);
    var fb := Erstelle(w, z, b, r);
    StimmigVoll(w, U, z);
    AbbruchVorKontoGenau(w, k, Anfang(z), plan);
    KontoOderNichts(w, k, Anfang(z), plan);
    assert GelesenBenannt(s.lauf, U) by {
      assert GelesenBenannt(Anfang(z), U) by { NichtsBenannt(z, U); }
      FolgeLiestBenanntes(w, U, k, Anfang(z), plan);
    }
    if s.Weiter? {
      if LiestNichts(s.lauf) {
        FolgeOhneLesen(w, k, Anfang(z), plan);
        LeererBeweisGenau(w, z, fb, r);
      } else {
        if OhneZugriff(w, k, plan) { OhneZugriffLiestNichts(w, k, Anfang(z), plan); }
        ErstelltMitBelegen(w, U, z, b, r);
      }
    } else if LiestNichts(s.lauf) {
      LeererBeweisGenau(w, z, fb, r);
    } else if s.lauf.quittungen == [] {
      LeererBeweisGenau(w, z, fb, r);
    } else {
      ErstelltMitBelegen(w, U, z, b, r);
      TrifftNurWeiter(b, s);
    }
  }

  lemma TrifftNurWeiter(b: BereichsBlock, s: Schritt)
    ensures Trifft(b, s) ==> s.Weiter?
  {
  }

  lemma NichtsBenannt(z: Zustand, U: iset<Urbild>)
    ensures GelesenBenannt(Anfang(z), U)
  {
  }

  /** A run that succeeds reads no receipt without also looking up an account. */
  lemma {:induction false} KontoOderNichts(w: Welt, b: Block, l: Uebergang.Lauf, plan: seq<Eingabe>)
    requires l.quittungen == [] || l.beruehrt != {}
    ensures var s := Folge(w, b, l, plan); s.Weiter? && s.lauf.beruehrt == {} ==> s.lauf.quittungen == []
    decreases |plan|
  {
    hide SetzeKonto, Verbrauche, Nachgetragen, Belastet, Gebuehr, Gekappt, Kappung, Nachtrag, Gedeckt;
    if plan != [] && Tue(w, b, l, plan[0]).Weiter? {
      KontoOderNichts(w, b, Tue(w, b, l, plan[0]).lauf, plan[1..]);
    }
  }

  lemma ErstelltMitBelegen(w: Welt, U: iset<Urbild>, z: Zustand, b: BereichsBlock, r: Rahmen)
    requires Sicher(w, U) && Stimmig(w, U, z) && b.vor == S.Wurzel(z.baum)
    requires GelesenBenannt(Rechne(w, z, b, r).lauf, U) && !OhneBelege(Erstelle(w, z, b, r).vor)
    ensures Pruefe(w, Erstelle(w, z, b, r), r) ==
      if Rechne(w, z, b, r).Weiter? || Rechne(w, z, b, r).lauf.beruehrt == {}
      then Gueltig(!Trifft(b, Rechne(w, z, b, r)))
      else Ungueltig
  {
    hide Sicher, Stimmig, Auszug, S.Wurzel, Rechne, Wahr, BeweisZustand, Pruefe, Trifft, Genannt, GelesenBenannt,
         Adressen, Ids, Gleichlauf.Schluessel;
    var fb, s := Erstelle(w, z, b, r), Rechne(w, z, b, r);
    StimmigVoll(w, U, z);
    var konten := if s.Weiter? then SortierteListe(s.lauf.beruehrt) else [];
    BeweisfuerWahr(w, z, konten, s.lauf.quittungen);
    ErstelltNamen(w, U, z, konten, s.lauf);
    WahrerAuszug(w, U, z, fb.vor);
    var p := BeweisZustand(w, fb.vor).wert;
    AuszugNichtLeer(w, U, z, fb.vor, p);
    UrteilAufAuszug(w, U, z, fb, r, p);
  }

  lemma ErstelltNamen(w: Welt, U: iset<Urbild>, z: Zustand, konten: seq<string>, l: Uebergang.Lauf)
    requires konten == [] || multiset(konten) == multiset(l.beruehrt)
    requires GelesenBenannt(l, U)
    ensures var v := Beweisfuer(w, z, konten, l.quittungen);
      Genannt(U, v) && Adressen(v) == (if konten == [] then {} else l.beruehrt) && Ids(v) == set id | id in l.quittungen
  {
    var v := Beweisfuer(w, z, konten, l.quittungen);
    forall i | 0 <= i < |konten| ensures konten[i] in l.beruehrt {
      assert konten[i] in multiset(konten);
    }
    if konten != [] {
      forall a | a in l.beruehrt ensures a in Adressen(v) {
        assert a in multiset(konten);
        var i :| 0 <= i < |konten| && konten[i] == a;
        assert v.konten[i].addr == a;
      }
    }
    forall id | id in l.quittungen ensures id in Ids(v) {
      var i :| 0 <= i < |l.quittungen| && l.quittungen[i] == id;
      assert v.quittungen[i].id == id;
    }
  }

  // ---- a deciding proof always exists ----------------------------------------------------------

  /** The claims of every account a run looked up and of one more, and of every receipt it read. */
  ghost function VollerBeweis(w: Welt, z: Zustand, b: BereichsBlock, r: Rahmen, a: string): Beweisstueck {
    var l := Rechne(w, z, b, r).lauf;
    Beweisstueck(b, Beweisfuer(w, z, SortierteListe(l.beruehrt + {a}), l.quittungen))
  }

  /** Whoever holds the shard can have any block decided, be it right or wrong, run to its end or
      abort, read much or nothing: there is a proof whose verdict is the truth about the block. */
  lemma JederBlockEntscheidbar(w: Welt, U: iset<Urbild>, z: Zustand, b: BereichsBlock, r: Rahmen, a: string)
    requires Sicher(w, U) && Stimmig(w, U, z) && b.vor == S.Wurzel(z.baum) && KontoSchluesselU(a) in U
    requires forall e :: e in Plan(b.eingaben) ==> EingabeBenannt(e, U)
    ensures Pruefe(w, VollerBeweis(w, z, b, r, a), r) == Gueltig(!Trifft(b, Rechne(w, z, b, r)))
  {
    hide Sicher, Stimmig, Folge, Plan, EingabeBenannt, GelesenBenannt, VollerBeweis, Pruefe, Trifft, S.Wurzel;
    var k := Kontext(w, b, r);
    assert GelesenBenannt(Anfang(z), U) by { NichtsBenannt(z, U); }
    FolgeLiestBenanntes(w, U, k, Anfang(z), Plan(b.eingaben));
    VollerBeweisEntscheidet(w, U, z, b, r, a);
  }

  lemma VollerBeweisEntscheidet(w: Welt, U: iset<Urbild>, z: Zustand, b: BereichsBlock, r: Rahmen, a: string)
    requires Sicher(w, U) && Stimmig(w, U, z) && b.vor == S.Wurzel(z.baum) && KontoSchluesselU(a) in U
    requires GelesenBenannt(Rechne(w, z, b, r).lauf, U)
    ensures Pruefe(w, VollerBeweis(w, z, b, r, a), r) == Gueltig(!Trifft(b, Rechne(w, z, b, r)))
  {
    hide Sicher, Stimmig, Auszug, S.Wurzel, Rechne, Wahr, BeweisZustand, Pruefe, Trifft, Genannt, GelesenBenannt,
         Adressen, Ids, Gleichlauf.Schluessel;
    var fb, l := VollerBeweis(w, z, b, r, a), Rechne(w, z, b, r).lauf;
    var mehr := l.(beruehrt := l.beruehrt + {a});
    var konten := SortierteListe(mehr.beruehrt);
    StimmigVoll(w, U, z);
    assert konten != [] by { assert a in multiset(mehr.beruehrt); }
    assert GelesenBenannt(mehr, U) by { EinerMehr(l, a, U); }
    BeweisfuerWahr(w, z, konten, l.quittungen);
    ErstelltNamen(w, U, z, konten, mehr);
    WahrerAuszug(w, U, z, fb.vor);
    var p := BeweisZustand(w, fb.vor).wert;
    AuszugNichtLeer(w, U, z, fb.vor, p);
    UrteilAufAuszug(w, U, z, fb, r, p);
  }

  lemma EinerMehr(l: Uebergang.Lauf, a: string, U: iset<Urbild>)
    requires GelesenBenannt(l, U) && KontoSchluesselU(a) in U
    ensures GelesenBenannt(l.(beruehrt := l.beruehrt + {a}), U)
  {
  }

  // ---- where the two properties end -----------------------------------------------------------

  /** A block that does nothing in a shard that is not empty is correct, and is refuted by a
      proof that claims nothing. */
  lemma LeererBeweisBeispiel(w: Welt, z: Zustand, bereich: int, r: Rahmen)
    requires z.Voll? && S.Wurzel(z.baum) != NULL
    ensures var wz := S.Wurzel(z.baum);
      var b := BereichsBlock(bereich, 0, 0, wz, wz, r, Eingaben([], [], []), [], NULLSUMME, 0, 0, map[], map[]);
      && Trifft(b, Rechne(w, z, b, r))
      && Pruefe(w, Beweisstueck(b, Vorzustand(wz, [], [])), r) == Gueltig(true)
  {
    hide S.Wurzel, BeweisZustand;
    var wz := S.Wurzel(z.baum);
    var b := BereichsBlock(bereich, 0, 0, wz, wz, r, Eingaben([], [], []), [], NULLSUMME, 0, 0, map[], map[]);
    assert Plan(b.eingaben) == [];
    LeererBeweisGenau(w, z, Beweisstueck(b, Vorzustand(wz, [], [])), r);
  }

  /** A block that redeems a good receipt and then a foreign one is wrong, but the proof its
      holder builds is worth nothing: the trial run aborts after it looked up an account. */
  lemma AbgebrochenerBeweisBeispiel(w: Welt, U: iset<Urbild>, z: Zustand, b: BereichsBlock, r: Rahmen, gut: Quittung,
                                    fremd: Quittung)
    requires Sicher(w, U) && Stimmig(w, U, z) && b.vor == S.Wurzel(z.baum)
    requires b.eingaben == Eingaben([gut, fremd], [], [])
    requires EingabeBenannt(Einloesung(gut), U) && EingabeBenannt(Einloesung(fremd), U)
    requires gut.nachBereich == b.bereich && w.bereichVon(gut.an, r.s) == b.bereich && gut.betrag > 0
    requires !Eingeloest(w, z.baum, gut.id) && fremd.nachBereich != b.bereich
    ensures Rechne(w, z, b, r).Abbruch? && Pruefe(w, Erstelle(w, z, b, r), r) == Ungueltig
  {
    hide Sicher, Stimmig, S.Wurzel, BeweisZustand, Pruefe, Erstelle, EingabeBenannt, Eingeloest, Gutschrift, S.Setze;
    var plan := Plan(b.eingaben);
    assert plan == [Einloesung(gut), Einloesung(fremd)];
    assert plan[1..] == [Einloesung(fremd)];
    StimmigVoll(w, U, z);
    var k := Kontext(w, b, r);
    var s := Tue(w, k, Anfang(z), plan[0]);
    assert s.Weiter?;
    assert Tue(w, k, s.lauf, plan[1..][0]).Abbruch?;
    assert Folge(w, k, s.lauf, plan[1..]).Abbruch?;
    ErstellterBeweisGenau(w, U, z, b, r);
  }
}
