/**
 The epoch block: adds up what the shards report, shares out basic income and
 sets the frame of the next epoch.
 */
module Sammel {
  import opened Typen
  import opened Bereich

  const GRENZE_FAKTOR := 25

  const ANFANG := Sammelblock(0, NULL, [], 0, 0, 0, 0, 0, 0, 0, 0, 0, 0)

  function SammelHash(w: Welt, s: Sammelblock): Hash { w.sha(SammelU(s)) }

  /** The random value the next epoch's committees are drawn with. */
  function Zufall(w: Welt, s: Sammelblock): Hash { w.sha(ZufallU(SammelHash(w, s), s.epoche)) }

  function RahmenAus(s: Sammelblock, bereiche: int): Rahmen { Rahmen(bereiche, s.geKumuliert, s.grenze) }

  predicate Erhalten(s: Sammelblock) {
    Wrap(s.geldmenge + s.offeneQuittung + s.topf) == Wrap(s.geschoepft - s.ausgestiegen)
  }

  function Zahlensumme(xs: seq<int>): int {
    if xs == [] then 0 else Zahlensumme(xs[..|xs| - 1]) + xs[|xs| - 1]
  }

  /** What the blocks of an epoch add up to. */
  datatype Epochensumme = Epochensumme(gebuehren: int, geAusgezahlt: int, geschoepft: int, ausstiege: int)

  function Summiere(bs: seq<BereichsBlock>): Epochensumme {
    if bs == [] then Epochensumme(0, 0, 0, 0)
    else
      var e, t := Summiere(bs[..|bs| - 1]), bs[|bs| - 1].teilsumme;
      Epochensumme(e.gebuehren + t.gebuehren, e.geAusgezahlt + t.geAusgezahlt,
                   e.geschoepft + t.geschoepft, e.ausstiege + t.ausstiege)
  }

  /** Share out neuFuerGE among the humans, keep the remainder, and set the wealth limit. */
  function Verteilt(s: Sammelblock): Sammelblock {
    if s.menschen <= 0 then s
    else
      var je := Quo(s.neuFuerGE, s.menschen);
      s.(geJeMensch := je,
         neuFuerGE := Wrap(s.neuFuerGE - je * s.menschen),
         geKumuliert := Wrap(s.geKumuliert + je),
         grenze := Wrap(Quo(s.geldmenge, s.menschen) * GRENZE_FAKTOR))
  }

  /** The totals of the epoch that closes, before sharing out. */
  function Addiert(w: Welt, vor: Sammelblock, geldmengen: seq<Int64>, menschen: seq<int>,
                   bloecke: seq<BereichsBlock>, offen: Int64): Sammelblock
  {
    var e := Summiere(bloecke);
    Sammelblock(
      (vor.epoche + 1) % ZWEI64, SammelHash(w, vor),
      seq(|bloecke|, i requires 0 <= i < |bloecke| => Kopf(w, bloecke[i])),
      Wrap(Zahlensumme(geldmengen)), Zahlensumme(menschen), offen,
      Wrap(vor.topf + e.gebuehren - e.geAusgezahlt), Wrap(vor.neuFuerGE + e.gebuehren), 0,
      vor.geKumuliert, 0, Wrap(vor.geschoepft + e.geschoepft), Wrap(vor.ausgestiegen + e.ausstiege))
  }

  function Naechster(w: Welt, vor: Sammelblock, geldmengen: seq<Int64>, menschen: seq<int>,
                     bloecke: seq<BereichsBlock>, offen: Int64): Sammelblock
  {
    Verteilt(Addiert(w, vor, geldmengen, menschen, bloecke, offen))
  }
}
