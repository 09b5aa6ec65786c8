/**
 The state transition of a shard block, over both kinds of state: the full state
 of a shard and the state of a fraud proof, which knows only the proven accounts.
 */
module Uebergang {
  import opened Typen
  import S = Smt

  // ---- states ----------------------------------------------------------------

  datatype Zustand =
    | Voll(baum: S.Baum, konten: map<string, Konto>)
    | Bewiesen(baum: S.Baum, konten: map<string, Konto>, quittungen: map<Hash, bool>)

  const NEU := Voll(S.LEERER_BAUM, map[])

  function KontoHash(w: Welt, addr: string, k: Konto): Hash {
    if k == LEERES_KONTO then NULL else w.sha(KontoU(addr, k))
  }

  function KontoSchluessel(w: Welt, addr: string): Hash { w.sha(KontoSchluesselU(addr)) }

  function QuittungSchluessel(w: Welt, id: Hash): Hash { w.sha(QuittungSchluesselU(id)) }

  function VerbrauchtWert(w: Welt): Hash { w.sha(VerbrauchtU) }

  /** An account of the full state; one that is not stored is empty. */
  function Inhalt(konten: map<string, Konto>, addr: string): Konto {
    if addr in konten then konten[addr] else LEERES_KONTO
  }

  /** None: the state does not know the account. */
  function LiesKonto(z: Zustand, addr: string): Option<Konto> {
    if z.Voll? || addr in z.konten then Some(Inhalt(z.konten, addr)) else None
  }

  function SetzeKonto(w: Welt, z: Zustand, addr: string, k: Konto): Zustand {
    var konten := if z.Voll? && k == LEERES_KONTO then z.konten - {addr} else z.konten[addr := k];
    z.(konten := konten, baum := S.Setze(w, z.baum, KontoSchluessel(w, addr), KontoHash(w, addr, k)))
  }

  lemma InhaltNachSetze(w: Welt, z: Zustand, a: string, k: Konto, a': string)
    requires z.Voll?
    ensures SetzeKonto(w, z, a, k).Voll?
    ensures Inhalt(SetzeKonto(w, z, a, k).konten, a') == if a' == a then k else Inhalt(z.konten, a')
  {
  }

  predicate Eingeloest(w: Welt, baum: S.Baum, id: Hash) {
    S.Wert(baum.werte, QuittungSchluessel(w, id)) == VerbrauchtWert(w)
  }

  /** None: the state does not know the receipt. */
  function Verbraucht(w: Welt, z: Zustand, id: Hash): Option<bool> {
    match z
    case Voll(baum, _) => Some(Eingeloest(w, baum, id))
    case Bewiesen(_, _, quittungen) => if id in quittungen then Some(quittungen[id]) else None
  }

  function Verbrauche(w: Welt, z: Zustand, id: Hash): Zustand {
    var baum := S.Setze(w, z.baum, QuittungSchluessel(w, id), VerbrauchtWert(w));
    match z
    case Voll(_, _) => z.(baum := baum)
    case Bewiesen(_, _, quittungen) => z.(baum := baum, quittungen := quittungen[id := true])
  }

  // ---- one account -------------------------------------------------------------

  const GRUNDBETRAG: Int64 := 1_000_000_000
  const GEBUEHR_BPS := 10

  /** Basic income owed to k under r. */
  function Nachtrag(r: Rahmen, k: Konto): Int64 {
    if k.mensch && k.geStand < r.geKumuliert then Wrap(r.geKumuliert - k.geStand) else 0
  }

  /** k with its basic income paid. */
  function Nachgetragen(r: Rahmen, k: Konto): Konto {
    if k.mensch && k.geStand < r.geKumuliert
    then k.(guthaben := Wrap(k.guthaben + Nachtrag(r, k)), geStand := r.geKumuliert) else k
  }

  /** What k holds above the wealth limit. */
  function Kappung(r: Rahmen, k: Konto): Int64 {
    if r.grenze > 0 && k.mensch && k.guthaben > r.grenze then Wrap(k.guthaben - r.grenze) else 0
  }

  function Gekappt(r: Rahmen, k: Konto): Konto {
    if r.grenze > 0 && k.mensch && k.guthaben > r.grenze then k.(guthaben := r.grenze) else k
  }

  function Gebuehr(betrag: Int64): Int64 { Quo(Wrap(betrag * GEBUEHR_BPS), 10_000) }

  // ---- one input ---------------------------------------------------------------

  /** Execution so far: state, partial sums, receipts issued, decisions, and what was read. */
  datatype Lauf = Lauf(
    z: Zustand, t: Teilsumme, ausgang: seq<Quittung>, angewandt: seq<bool>,
    beruehrt: set<string>, quittungen: seq<Hash>)

  datatype Fehler = FehltImBeweis | Unzulaessig

  datatype Schritt = Weiter(lauf: Lauf) | Abbruch(lauf: Lauf, fehler: Fehler)

  datatype Eingabe =
    | Einloesung(q: Quittung)
    | Anmeldung(addr: string)
    | Zahlung(i: nat, u: Ueberweisung)

  datatype Block = Block(bereich: int, rahmen: Rahmen, id: Hash)

  /** Catch up, credit and cap account a, whose content is k. */
  function Gutschrift(w: Welt, r: Rahmen, l: Lauf, a: string, k: Konto, betrag: Int64): Lauf {
    var k1 := Nachgetragen(r, k);
    var k2 := k1.(guthaben := Wrap(k1.guthaben + betrag));
    l.(z := SetzeKonto(w, l.z, a, Gekappt(r, k2)),
       t := l.t.(geAusgezahlt := Wrap(l.t.geAusgezahlt + Nachtrag(r, k)),
                 gebuehren := Wrap(l.t.gebuehren + Kappung(r, k2))))
  }

  function Einloesen(w: Welt, b: Block, l: Lauf, q: Quittung): Schritt {
    if q.nachBereich != b.bereich || w.bereichVon(q.an, b.rahmen.s) != b.bereich || q.betrag <= 0
    then Abbruch(l, Unzulaessig)
    else match Verbraucht(w, l.z, q.id)
      case None => Abbruch(l, FehltImBeweis)
      case Some(v) =>
        var l1 := l.(quittungen := l.quittungen + [q.id]);
        if v then Abbruch(l1, Unzulaessig)
        else
          var l2 := l1.(z := Verbrauche(w, l1.z, q.id), beruehrt := l1.beruehrt + {q.an});
          match LiesKonto(l2.z, q.an)
          case None => Abbruch(l2, FehltImBeweis)
          case Some(k) =>
            var l3 := Gutschrift(w, b.rahmen, l2, q.an, k, q.betrag);
            Weiter(l3.(t := l3.t.(eingang := Wrap(l3.t.eingang + q.betrag))))
  }

  function Anmelden(w: Welt, b: Block, l: Lauf, addr: string): Schritt {
    if w.bereichVon(addr, b.rahmen.s) != b.bereich then Abbruch(l, Unzulaessig)
    else
      var l1 := l.(beruehrt := l.beruehrt + {addr});
      match LiesKonto(l1.z, addr)
      case None => Abbruch(l1, FehltImBeweis)
      case Some(k) =>
        if k.mensch then Weiter(l1)
        else
          var k1 := k.(mensch := true, geStand := b.rahmen.geKumuliert, guthaben := Wrap(k.guthaben + GRUNDBETRAG));
          Weiter(l1.(z := SetzeKonto(w, l1.z, addr, k1),
                     t := l1.t.(geschoepft := Wrap(l1.t.geschoepft + GRUNDBETRAG),
                                neueMenschen := l1.t.neueMenschen + 1)))
  }

  /** Skipped without looking at any account. */
  predicate VorabUebersprungen(w: Welt, u: Ueberweisung) {
    u.betrag <= 0 || u.von == u.an || (!u.ausstieg && u.an == "") || !w.signiert(u)
  }

  function Entscheide(l: Lauf, ok: bool): Schritt { Weiter(l.(angewandt := l.angewandt + [ok])) }

  function Ueberweise(w: Welt, b: Block, l: Lauf, i: nat, u: Ueberweisung): Schritt {
    if w.bereichVon(u.von, b.rahmen.s) != b.bereich then Abbruch(l, Unzulaessig)
    else if VorabUebersprungen(w, u) then Entscheide(l, false)
    else
      var l1 := l.(beruehrt := l.beruehrt + {u.von});
      match LiesKonto(l1.z, u.von)
      case None => Abbruch(l1, FehltImBeweis)
      case Some(k) => Belaste(w, b, l1, i, u, k)
  }

  predicate Gedeckt(u: Ueberweisung, von: Konto) {
    u.nonce == von.nonce && Wrap(u.betrag + Gebuehr(u.betrag)) <= von.guthaben
  }

  /** The sender's account after an applied transfer. */
  function Belastet(u: Ueberweisung, von: Konto): Konto {
    von.(guthaben := Wrap(von.guthaben - Wrap(u.betrag + Gebuehr(u.betrag))),
         nonce := (von.nonce + 1) % ZWEI64)
  }

  function Belaste(w: Welt, b: Block, l: Lauf, i: nat, u: Ueberweisung, k: Konto): Schritt {
    var von := Nachgetragen(b.rahmen, k);
    var l1 := l.(t := l.t.(geAusgezahlt := Wrap(l.t.geAusgezahlt + Nachtrag(b.rahmen, k))));
    if !Gedeckt(u, von) then Entscheide(l1.(z := SetzeKonto(w, l1.z, u.von, von)), false)
    else
      var l2 := l1.(z := SetzeKonto(w, l1.z, u.von, Belastet(u, von)),
                    t := l1.t.(gebuehren := Wrap(l1.t.gebuehren + Gebuehr(u.betrag))));
      if u.ausstieg then
        Entscheide(l2.(t := l2.t.(ausstiege := Wrap(l2.t.ausstiege + u.betrag))), true)
      else if w.bereichVon(u.an, b.rahmen.s) == b.bereich then
        var l3 := l2.(beruehrt := l2.beruehrt + {u.an});
        match LiesKonto(l3.z, u.an)
        case None => Abbruch(l3, FehltImBeweis)
        case Some(an) => Entscheide(Gutschrift(w, b.rahmen, l3, u.an, an, u.betrag), true)
      else
        var q := Quittung(w.sha(QuittungU(b.id, i)), b.bereich, w.bereichVon(u.an, b.rahmen.s), u.an, u.betrag);
        Entscheide(l2.(ausgang := l2.ausgang + [q], t := l2.t.(ausgang := Wrap(l2.t.ausgang + u.betrag))), true)
  }

  function Tue(w: Welt, b: Block, l: Lauf, e: Eingabe): Schritt {
    match e
    case Einloesung(q) => Einloesen(w, b, l, q)
    case Anmeldung(addr) => Anmelden(w, b, l, addr)
    case Zahlung(i, u) => Ueberweise(w, b, l, i, u)
  }

  // ---- a block -----------------------------------------------------------------

  /** The inputs of a block in the order they are applied. */
  function Plan(e: Eingaben): seq<Eingabe> {
    seq(|e.eingang|, i requires 0 <= i < |e.eingang| => Einloesung(e.eingang[i]))
    + seq(|e.registrierung|, i requires 0 <= i < |e.registrierung| => Anmeldung(e.registrierung[i]))
    + seq(|e.ueberweisungen|, i requires 0 <= i < |e.ueberweisungen| => Zahlung(i, e.ueberweisungen[i]))
  }

  /** Apply the inputs in order, up to the first that aborts. */
  function Folge(w: Welt, b: Block, l: Lauf, plan: seq<Eingabe>): Schritt
    decreases |plan|
  {
    if plan == [] then Weiter(l)
    else match Tue(w, b, l, plan[0])
      case Weiter(l') => Folge(w, b, l', plan[1..])
      case Abbruch(l', f) => Abbruch(l', f)
  }

  function Anfang(z: Zustand): Lauf { Lauf(z, NULLSUMME, [], [], {}, []) }

  function Ausfuehren(w: Welt, b: Block, z: Zustand, e: Eingaben): Schritt {
    Folge(w, b, Anfang(z), Plan(e))
  }
}
