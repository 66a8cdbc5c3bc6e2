/** The data tables of constants.ts that the behaviour depends on. */
module Constants {
  import opened Wrappers
  import opened Types

  /** Every badge that can be earned, in display order. */
  const BadgesList: seq<Badge> := [
    Badge("novice_observer", "Novice Observer", "Started your first investigation", "Eye", None),
    Badge("taxonomist", "Junior Taxonomist", "Identified 5 different species", "Microscope", None),
    Badge("streak_3", "Field Runner", "Maintained a 3-day research streak", "Flame", None),
    Badge("publisher", "Publisher", "Generated a formal Lab Report", "FileText", None),
    Badge("bioblitz", "Bio-Blitz Agent", "Participated in community data gathering", "Globe", None),
    Badge("night_owl", "Night Owl", "Conducted research after 10 PM", "Moon", None),
    Badge("early_bird", "Early Bird", "Started an expedition before 8 AM", "Sun", None),
    Badge("shutterbug", "NatGeo Photographer", "Uploaded 10 specimen photos", "Camera", None)
  ]

  /** The rank ladder, by ascending XP threshold. */
  const Ranks: seq<Rank> := [
    Rank(0, "Field Intern", "bg-gray-400"),
    Rank(200, "Junior Scout", "bg-green-400"),
    Rank(500, "Research Assistant", "bg-blue-400"),
    Rank(1000, "Senior Ecologist", "bg-purple-400"),
    Rank(2500, "Principal Investigator", "bg-yellow-500")
  ]

  const DailyChallenges: seq<string> := [
    "Find a leaf with parallel veins.",
    "Photograph a pollinator in action.",
    "Find a plant growing in a crack in the pavement.",
    "Identify a tree by its bark texture.",
    "Find a flower with exactly 5 petals.",
    "Locate a non-green plant (e.g., fungi or parasitic).",
    "Find evidence of an animal (tracks, feathers, etc)."
  ]

  const FallbackSuggestions: seq<string> := [
    "Identify a Specimen",
    "Start Lab Report",
    "Join Bio-Blitz",
    "3D Structural Analysis"
  ]

  /** The rank thresholds strictly increase along the table, starting at 0. */
  predicate RanksAscending() {
    |Ranks| > 0 && Ranks[0].minXp == 0 &&
    forall i, j :: 0 <= i < j < |Ranks| ==> Ranks[i].minXp < Ranks[j].minXp
  }

  lemma RanksAreAscending()
    ensures RanksAscending()
  {
  }
}
