/**
 * Placement of the dataset labels around the ring (app.js lines 143-166):
 * the radial transform, the side-dependent flip and anchor, and the
 * one-line-per-segment layout.
 */
module Layout {
  import opened Rows
  import opened Labels

  /** `Math.PI`. */
  const Pi: real := 3.141592653589793
  /** `lineHeight`, in em. */
  const LineHeight: real := 1.1
  /** Distance of a label beyond the outer radius (`translate(outerRadius + 10)`). */
  const LabelGap: real := 10.0

  /** A chord group as the layout supplies it; its angles are inputs here. */
  datatype Group = Group(index: nat, startAngle: real, endAngle: real)

  /**
   * A label's transform `rotate(turn) translate(radius) rotate(flip)`, in
   * degrees and pixels, and its `text-anchor`.
   */
  datatype Placement = Placement(turn: real, radius: real, flip: real, anchor: string)

  /** `d.angle = (d.startAngle + d.endAngle) / 2` */
  function MidAngle(g: Group): real
  {
    (g.startAngle + g.endAngle) / 2.0
  }

  function Place(g: Group, outerRadius: real): Placement
  {
    var angle := MidAngle(g);
    Placement((angle * 180.0) / Pi - 90.0,
              outerRadius + LabelGap,
              if angle > Pi then 180.0 else 0.0,
              if angle > Pi then "end" else "start")
  }

  /**
   * The mirror is applied exactly when the radial turn points the text into
   * the left half of the circle (more than 90 degrees), so labels read upright.
   */
  lemma FlipOnLeftHalf(g: Group, outerRadius: real)
    ensures Place(g, outerRadius).flip == 180.0 <==> Place(g, outerRadius).turn > 90.0
  {
    var angle := MidAngle(g);
    assert (angle * 180.0) / Pi > 180.0 <==> angle > Pi;
  }

  /** For a group inside the circle, its mid-angle lies in its arc and the turn lies in [-90, 270]. */
  lemma TurnRange(g: Group, outerRadius: real)
    requires 0.0 <= g.startAngle <= g.endAngle <= 2.0 * Pi
    ensures g.startAngle <= MidAngle(g) <= g.endAngle
    ensures -90.0 <= Place(g, outerRadius).turn <= 270.0
  {
  }

  /**
   * Labels never read upside down: for a group inside the circle, the total
   * rotation of the text (radial turn plus flip) points it rightwards, within
   * 90 degrees of the horizontal, up to whole turns.
   */
  lemma Upright(g: Group, outerRadius: real)
    requires 0.0 <= g.startAngle <= g.endAngle <= 2.0 * Pi
    ensures var p := Place(g, outerRadius);
            (-90.0 <= p.turn + p.flip <= 90.0) || (270.0 < p.turn + p.flip <= 450.0)
  {
    var angle := MidAngle(g);
    assert (angle * 180.0) / Pi > 180.0 <==> angle > Pi;
    assert angle <= 2.0 * Pi;
  }

  /** One `<tspan>` of a label: its text and its `dy` in em. */
  datatype Tspan = Tspan(text: string, dy: real)

  /** `labels[d.index].split(" | ")`, each piece a line; the first at dy 0, each later one a line lower. */
  function Lines(caption: string): seq<Tspan>
  {
    var words := Split(caption, Delimiter);
    seq(|words|, k requires 0 <= k < |words| => Tspan(words[k], if k == 0 then 0.0 else LineHeight))
  }

  function Texts(lines: seq<Tspan>): (ts: seq<string>)
    ensures |ts| == |lines|
    ensures forall k :: 0 <= k < |lines| ==> ts[k] == lines[k].text
  {
    seq(|lines|, k requires 0 <= k < |lines| => lines[k].text)
  }

  /** The lines of any label rejoin to it; only the first has no offset. */
  lemma LinesRejoin(caption: string)
    ensures |Lines(caption)| >= 1
    ensures Join(Texts(Lines(caption)), Delimiter) == caption
    ensures Lines(caption)[0].dy == 0.0
    ensures forall k :: 1 <= k < |Lines(caption)| ==> Lines(caption)[k].dy == LineHeight
  {
    assert Texts(Lines(caption)) == Split(caption, Delimiter);
  }

  /** A dataset caption is laid out as its three segments on three lines. */
  lemma LabelLines(sample: Record)
    requires PlainFields(sample)
    ensures Lines(LabelText(sample)) ==
            [Tspan(OrElse(Name(sample), UnknownDataset), 0.0),
             Tspan(OrElse(Field(sample, "sampleID"), UnknownSample), LineHeight),
             Tspan(OrElse(Field(sample, "country"), UnknownCountry), LineHeight)]
  {
    LabelSegments(sample);
  }
}
