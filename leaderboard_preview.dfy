/** The home page's leaderboard preview: rank colours, the medal rule and the footer button's border. */
module LeaderboardPreview {

  /** A previewed row: the trader tab and the gamer tab both use ranks and user names. */
  datatype PreviewRow = PreviewRow(id: nat, rank: int, username: string, tokens: nat)

  const TRADERS_DATA: seq<PreviewRow> := [
    PreviewRow(1, 1, "CyberTrader", 45892),
    PreviewRow(2, 2, "NeonHunter", 32567),
    PreviewRow(3, 3, "QuantumRift", 29845),
    PreviewRow(4, 4, "SynthWave", 26721),
    PreviewRow(5, 5, "BitRunner", 21456)
  ]

  const GAMERS_DATA: seq<PreviewRow> := [
    PreviewRow(1, 1, "NeuroLancer", 38921),
    PreviewRow(2, 2, "NightCity", 35782),
    PreviewRow(3, 3, "RiftRunner", 32451),
    PreviewRow(4, 4, "TechMage", 30126),
    PreviewRow(5, 5, "CyberSamurai", 28753)
  ]

  const DEFAULT_COLOR := "text-gray-400"

  /** The text colour of a rank: one colour per podium place, the default for every other rank. */
  function GetRankColor(rank: int): (r: string)
    ensures r == DEFAULT_COLOR <==> rank != 1 && rank != 2 && rank != 3
  {
    if rank == 1 then "text-yellow-400"
    else if rank == 2 then "text-gray-300"
    else if rank == 3 then "text-amber-700"
    else DEFAULT_COLOR
  }

  /** The medal icon precedes the rank when the rank is 3 or less. */
  predicate ShowsMedal(rank: int)
    ensures GetRankColor(rank) != DEFAULT_COLOR ==> ShowsMedal(rank)
  {
    rank <= 3
  }

  /** The class of the "View Full Leaderboard" button. */
  function FooterButtonClass(activeTab: string): (r: string)
    ensures r in {"neon-border-purple w-full", "neon-border-green w-full"}
  {
    if activeTab == "traders" then "neon-border-purple w-full" else "neon-border-green w-full"
  }

  /** The podium ranks get three different colours, none of them the default; every other rank gets the default. */
  lemma RankColorSpec(rank: int)
    ensures GetRankColor(1) == "text-yellow-400" && GetRankColor(2) == "text-gray-300" && GetRankColor(3) == "text-amber-700"
    ensures GetRankColor(rank) == DEFAULT_COLOR <==> rank != 1 && rank != 2 && rank != 3
  {
  }

  /** In both tabs the medal is shown exactly for the rows that get a podium colour, which are the first three. */
  lemma MedalSpec()
    ensures forall i :: 0 <= i < |TRADERS_DATA| ==>
      (ShowsMedal(TRADERS_DATA[i].rank) <==> GetRankColor(TRADERS_DATA[i].rank) != DEFAULT_COLOR) &&
      (ShowsMedal(TRADERS_DATA[i].rank) <==> i < 3)
    ensures forall i :: 0 <= i < |GAMERS_DATA| ==>
      (ShowsMedal(GAMERS_DATA[i].rank) <==> GetRankColor(GAMERS_DATA[i].rank) != DEFAULT_COLOR) &&
      (ShowsMedal(GAMERS_DATA[i].rank) <==> i < 3)
  {
  }

  /** The footer button has the purple border exactly on the traders tab, and the green one otherwise. */
  lemma FooterButtonSpec(activeTab: string)
    ensures FooterButtonClass(activeTab) == "neon-border-purple w-full" <==> activeTab == "traders"
    ensures FooterButtonClass(activeTab) == "neon-border-green w-full" <==> activeTab != "traders"
  {
  }
}
