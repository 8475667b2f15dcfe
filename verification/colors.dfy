/** The colour table: a fixed map from colour name to the intensity of each
    of the three channels (red, green, blue), each in [0, 1]. */
module Colors {
  import opened Pwm

  /** An intensity triple in channel order red, green, blue. */
  datatype Rgb = Rgb(red: real, green: real, blue: real) {

    /** The intensity for channel `ch`, as `colors_dict[color][ch]`. */
    function At(ch: Channel): real {
      if ch == 0 then red else if ch == 1 then green else blue
    }

    predicate InUnitCube() {
      0.0 <= red <= 1.0 && 0.0 <= green <= 1.0 && 0.0 <= blue <= 1.0
    }
  }

  /** The recognised colours; 0.4 and 0.1 are exact reals here. */
  const Table: map<string, Rgb> := map[
    "off"     := Rgb(0.0, 0.0, 0.0),
    "red"     := Rgb(1.0, 0.0, 0.0),
    "green"   := Rgb(0.0, 1.0, 0.0),
    "blue"    := Rgb(0.0, 0.0, 1.0),
    "white"   := Rgb(1.0, 1.0, 1.0),
    "yellow"  := Rgb(1.0, 1.0, 0.0),
    "cyan"    := Rgb(0.0, 1.0, 1.0),
    "magenta" := Rgb(1.0, 0.0, 1.0),
    "orange"  := Rgb(1.0, 0.4, 0.0),
    "weakred" := Rgb(0.1, 0.0, 0.0)
  ]

  /** The recognised names, in the order the table lists them. */
  const Names: seq<string> :=
    ["off", "red", "green", "blue", "white", "yellow", "cyan", "magenta", "orange", "weakred"]

  /** Every intensity of the table lies in [0, 1]. */
  lemma TableInUnitCube(name: string)
    requires name in Table
    ensures Table[name].InUnitCube()
  {
  }

  /** The table holds exactly the ten listed names, and they are distinct. */
  lemma TableShape()
    ensures forall n :: n in Table <==> n in Names
    ensures |Names| == 10
    ensures forall i, j :: 0 <= i < j < |Names| ==> Names[i] != Names[j]
  {
  }

  /** Some entries the table promises; the match on the name is exact and
      case-sensitive. */
  lemma TableExamples()
    ensures Table["off"] == Rgb(0.0, 0.0, 0.0)
    ensures Table["orange"] == Rgb(1.0, 0.4, 0.0)
    ensures Table["weakred"] == Rgb(0.1, 0.0, 0.0)
    ensures "bogus" !in Table
    ensures "Red" !in Table
  {
  }
}
