/**
 Shard blocks: what is signed, when a committee has confirmed, and the cheap
 checks every node makes without holding the shard.
 */
module Bereich {
  import opened Typen
  import opened Geld

  /** Fixed before execution: receipt ids derive from it. */
  function EingabenID(w: Welt, b: BereichsBlock): Hash {
    w.sha(BlockU(b.bereich, b.epoche, b.nr, b.vor, w.sha(EingabenU(b.eingaben))))
  }

  function Kopf(w: Welt, b: BereichsBlock): Hash {
    w.sha(KopfU(EingabenID(w, b), b.nach, b.rahmen, w.sha(AusgangU(b.ausgang)), b.teilsumme, b.geldmenge, b.menschen))
  }

  // ---- quorum -------------------------------------------------------------------------

  const PRUEF: seq<int> := [112, 114, 117, 101, 102, 58]

  /** At least two thirds, as the program rounds. */
  function Mehrheit(m: nat): nat { (2 * m + 2) / 3 }

  /** a has a valid signature over n in sig; a marked signature carries the mark in front. */
  predicate HatUnterschrieben(w: Welt, sig: map<string, seq<int>>, a: string, n: Nachricht) {
    var praefix := if n.pruef then PRUEF else [];
    a in sig && praefix <= sig[a] && w.bestaetigt(a, n, sig[a][|praefix|..])
  }

  function Zaehle(w: Welt, sig: map<string, seq<int>>, ausschuss: seq<string>, n: Nachricht): nat {
    if ausschuss == [] then 0
    else
      Zaehle(w, sig, ausschuss[..|ausschuss| - 1], n)
      + (if HatUnterschrieben(w, sig, ausschuss[|ausschuss| - 1], n) then 1 else 0)
  }

  predicate BestaetigtVon(w: Welt, b: BereichsBlock, ausschuss: seq<string>) {
    Zaehle(w, b.sig, ausschuss, Nachricht(false, Kopf(w, b))) >= Mehrheit(|ausschuss|)
  }

  predicate GeprueftVon(w: Welt, b: BereichsBlock, pruefer: seq<string>) {
    Zaehle(w, b.pruefSig, pruefer, Nachricht(true, Kopf(w, b))) >= Mehrheit(|pruefer|)
  }

  // ---- cheap checks -----------------------------------------------------------------------

  datatype Pruefung = Angenommen | Abgelehnt(grund: Grund)
  datatype Grund = ZuWenigeUnterschriften | FalscherRahmen | KetteGebrochen | FremdeQuittung
    | QuittungssummenFalsch | GeldmengeFalsch | MenschenFalsch

  /** The money a shard must report, given what it had and its partial sums. */
  function Soll(vorher: Int64, t: Teilsumme): Int64 {
    Wrap(vorher + t.eingang + t.geschoepft + t.geAusgezahlt - t.ausgang - t.gebuehren - t.ausstiege)
  }

  predicate EigeneQuittungen(b: BereichsBlock) {
    forall q :: q in b.ausgang ==> q.vonBereich == b.bereich && q.betrag > 0
  }

  function BilligPruefen(w: Welt, b: BereichsBlock, vorher: Option<BereichsBlock>, ausschuss: seq<string>,
                         r: Rahmen): Pruefung {
    if !BestaetigtVon(w, b, ausschuss) then Abgelehnt(ZuWenigeUnterschriften)
    else if b.rahmen != r then Abgelehnt(FalscherRahmen)
    else if vorher.Some? && (b.nr != (vorher.wert.nr + 1) % ZWEI64 || b.vor != vorher.wert.nach)
    then Abgelehnt(KetteGebrochen)
    else if !EigeneQuittungen(b) then Abgelehnt(FremdeQuittung)
    else if Wrap(Betraege(b.ausgang)) != b.teilsumme.ausgang
      || Wrap(Betraege(b.eingaben.eingang)) != b.teilsumme.eingang
    then Abgelehnt(QuittungssummenFalsch)
    else
      var vg, vm := if vorher.Some? then vorher.wert.geldmenge else 0, if vorher.Some? then vorher.wert.menschen else 0;
      if b.geldmenge != Soll(vg, b.teilsumme) || b.geldmenge < 0 then Abgelehnt(GeldmengeFalsch)
      else if b.menschen != vm + b.teilsumme.neueMenschen then Abgelehnt(MenschenFalsch)
      else Angenommen
  }
}
