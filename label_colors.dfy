/** The colour mapper of labels_planka.py: a fixed table from the ten Trello
    label colours to Planka label colours, with one neutral default. */
module LabelColors {
  import opened Wrappers

  /** The colour every unknown or missing Trello colour becomes. */
  const DefaultColor: string := "desert-sand"

  /** The table `TRELLO_TO_PLANKA_COLORS`. */
  const TrelloToPlankaColors: map<string, string> := map[
    "green"  := "tank-green",
    "yellow" := "egg-yellow",
    "orange" := "pumpkin-orange",
    "red"    := "berry-red",
    "purple" := "midnight-blue",
    "blue"   := "lagoon-blue",
    "sky"    := "morning-sky",
    "pink"   := "pink-tulip",
    "black"  := "dark-granite",
    "lime"   := "bright-moss"
  ]

  /** The eleven Planka colours the mapper can produce. */
  const PlankaPalette: set<string> := {
    "tank-green", "egg-yellow", "pumpkin-orange", "berry-red", "midnight-blue",
    "lagoon-blue", "morning-sky", "pink-tulip", "dark-granite", "bright-moss",
    "desert-sand"
  }

  /** `get_planka_label_color`: the table lookup with the default, written
      out as a match over the ten names (lemma `MatchesTableLookup` proves it
      equal to the dictionary lookup). A JSON null colour is `None`, which
      is not a key of the table. The function is total: no input makes it
      fail. */
  function PlankaLabelColor(trelloColor: Option<string>): (r: string)
    ensures r in PlankaPalette
  {
    match trelloColor
    case None => DefaultColor
    case Some(c) =>
      match c
      case "green" => "tank-green"
      case "yellow" => "egg-yellow"
      case "orange" => "pumpkin-orange"
      case "red" => "berry-red"
      case "purple" => "midnight-blue"
      case "blue" => "lagoon-blue"
      case "sky" => "morning-sky"
      case "pink" => "pink-tulip"
      case "black" => "dark-granite"
      case "lime" => "bright-moss"
      case _ => DefaultColor
  }

  /** The mapper is `TRELLO_TO_PLANKA_COLORS.get(colour, "desert-sand")`,
      and a null colour gets the default. */
  lemma MatchesTableLookup(trelloColor: Option<string>)
    ensures PlankaLabelColor(trelloColor)
         == if trelloColor.Some? && trelloColor.value in TrelloToPlankaColors
            then TrelloToPlankaColors[trelloColor.value] else DefaultColor
  {
  }

  /** Every result is one of the eleven palette colours, and it is the
      default exactly when the colour is not a key of the table. */
  lemma ResultInPalette(trelloColor: Option<string>)
    ensures PlankaLabelColor(trelloColor) in PlankaPalette
    ensures PlankaLabelColor(trelloColor) == DefaultColor
        <==> !(trelloColor.Some? && trelloColor.value in TrelloToPlankaColors)
  {
  }

  /** Each of the ten known colours maps to exactly its paired colour. */
  lemma KnownColors()
    ensures PlankaLabelColor(Some("green")) == "tank-green"
    ensures PlankaLabelColor(Some("yellow")) == "egg-yellow"
    ensures PlankaLabelColor(Some("orange")) == "pumpkin-orange"
    ensures PlankaLabelColor(Some("red")) == "berry-red"
    ensures PlankaLabelColor(Some("purple")) == "midnight-blue"
    ensures PlankaLabelColor(Some("blue")) == "lagoon-blue"
    ensures PlankaLabelColor(Some("sky")) == "morning-sky"
    ensures PlankaLabelColor(Some("pink")) == "pink-tulip"
    ensures PlankaLabelColor(Some("black")) == "dark-granite"
    ensures PlankaLabelColor(Some("lime")) == "bright-moss"
  {
  }

  /** Any colour outside the ten names, a null colour, and the "gray" that
      the label migrator substitutes for a missing colour all map to the
      default. */
  lemma UnknownColorsGetDefault(c: string)
    requires c !in {"green", "yellow", "orange", "red", "purple", "blue", "sky", "pink", "black", "lime"}
    ensures PlankaLabelColor(Some(c)) == DefaultColor
    ensures PlankaLabelColor(None) == DefaultColor
    ensures PlankaLabelColor(Some("gray")) == DefaultColor
    ensures PlankaLabelColor(Some("")) == DefaultColor
  {
  }

  /** Distinct Trello colours never share a Planka colour unless both fall
      back to the default. */
  lemma MapperInjectiveOnTable(a: Option<string>, b: Option<string>)
    requires PlankaLabelColor(a) == PlankaLabelColor(b)
    requires PlankaLabelColor(a) != DefaultColor
    ensures a == b
  {
  }

  /** No Planka colour contains an underscore, the separator of the label
      cache key. */
  lemma PaletteHasNoUnderscore(c: string)
    requires c in PlankaPalette
    ensures '_' !in c
  {
  }

  /** The palette is the ten table values and the default, which is not one
      of them. */
  lemma PaletteIsTableValuesAndDefault()
    ensures PlankaPalette == TrelloToPlankaColors.Values + {DefaultColor}
    ensures DefaultColor !in TrelloToPlankaColors.Values
  {
    forall v | v in TrelloToPlankaColors.Values
      ensures v in PlankaPalette && v != DefaultColor
    {
      var k :| k in TrelloToPlankaColors && TrelloToPlankaColors[k] == v;
    }
    assert TrelloToPlankaColors["green"] == "tank-green";
    assert TrelloToPlankaColors["yellow"] == "egg-yellow";
    assert TrelloToPlankaColors["orange"] == "pumpkin-orange";
    assert TrelloToPlankaColors["red"] == "berry-red";
    assert TrelloToPlankaColors["purple"] == "midnight-blue";
    assert TrelloToPlankaColors["blue"] == "lagoon-blue";
    assert TrelloToPlankaColors["sky"] == "morning-sky";
    assert TrelloToPlankaColors["pink"] == "pink-tulip";
    assert TrelloToPlankaColors["black"] == "dark-granite";
    assert TrelloToPlankaColors["lime"] == "bright-moss";
  }
}
