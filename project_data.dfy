/**
 * The portfolio's project catalogue: one constant array of records that the
 * modal manager and the work-section visualisation read.
 */
module ProjectData {
  import opened Wrappers

  /** One catalogue record; `embedUrl` and `embedType` are `null` for a project without an embed. */
  datatype Project = Project(
    id: string,
    title: string,
    description: string,
    tags: seq<string>,
    hasEmbed: bool,
    embedUrl: Option<string>,
    embedType: Option<string>)

  /** The capability flag agrees with the presence of an embed target and an embed type. */
  predicate EmbedFieldsAgree(p: Project) {
    && (p.hasEmbed <==> p.embedUrl.Some?)
    && (p.hasEmbed <==> p.embedType.Some?)
  }

  /** Every embed target is an absolute https URL. */
  predicate SecureUrl(p: Project) {
    p.embedUrl.Some? ==> "https://" <= p.embedUrl.value
  }

  /** No two records share an id. */
  predicate IdsDistinct(ps: seq<Project>) {
    forall i, j :: 0 <= i < j < |ps| ==> ps[i].id != ps[j].id
  }

  /** The `projectsData` constant, in catalogue order. */
  function ProjectsData(): (r: seq<Project>)
    ensures |r| == 6
  {
    [TreasureHunter(), SteamboatRestoration(), Solarpunk3d(), Probabilities(), PizzaMatrix(), Epluribus()]
  }

  // The six records of the catalogue, in the order they appear in it.

  const TreasureHunterDescription := "Interactive adventure game built with p5.js featuring collision detection and game mechanics"

  function TreasureHunter(): Project {
    Project("treasure-hunter", "Treasure Hunter",
      TreasureHunterDescription,
      ["Creative Coding", "p5.js"], true,
      Some("https://martidous.github.io/adventure2/"), Some("github-pages"))
  }

  const SteamboatRestorationDescription := "Digital restoration and animation of historic footage using creative coding techniques"

  function SteamboatRestoration(): Project {
    Project("steamboat-restoration", "Steamboat Willi Restoration",
      SteamboatRestorationDescription,
      ["Product", "Systems"], true,
      Some("https://martidous.github.io/streamboat/"), Some("custom"))
  }

  const Solarpunk3dDescription := "Immersive 3D environment combining p5.js and A-Frame for WebXR experiences"

  function Solarpunk3d(): Project {
    Project("solarpunk-3d", "Solarpunk 3D Experience",
      Solarpunk3dDescription,
      ["Interactive", "WebXR"], true,
      Some("https://martuzaferdous.com/ucf/p5Aframe/"), Some("custom"))
  }

  const ProbabilitiesDescription := "Exploring mathematical concepts through generative art"

  function Probabilities(): Project {
    Project("probabilities", "Probabilities",
      ProbabilitiesDescription,
      ["Math Art", "Generative"], true,
      Some("https://martidous.github.io/probability"), Some("github-pages"))
  }

  const PizzaMatrixDescription := "Interactive matrix visualization with pizza-themed elements"

  function PizzaMatrix(): Project {
    Project("pizza-matrix", "Pizza Matrix",
      PizzaMatrixDescription,
      ["Creative Coding", "Interactive"], true,
      Some("https://martidous.github.io/pizzamatrix/"), Some("github-pages"))
  }

  const EpluribusDescription := "Coming soon - Hybrid technology project bridging multiple domains"

  function Epluribus(): Project {
    Project("epluribus", "Epluribus Technologies",
      EpluribusDescription,
      ["Hybrid", "Bridge Work"], false,
      None, None)
  }

  /** Record ids are pairwise distinct. */
  lemma IdsAreDistinct()
    ensures IdsDistinct(ProjectsData())
  {
    var r := ProjectsData();
    assert r[0].id[0] == 't' && r[1].id[0] == 's' && r[2].id[0] == 's' && r[3].id[0] == 'p';
    assert r[4].id[0] == 'p' && r[5].id[0] == 'e';
    assert r[1].id[1] == 't' && r[2].id[1] == 'o' && r[3].id[1] == 'r' && r[4].id[1] == 'i';
  }

  /** Every record's embed fields agree with `hasEmbed`, and every embed target is an https URL. */
  lemma RecordsWellFormed()
    ensures forall i :: 0 <= i < |ProjectsData()| ==> EmbedFieldsAgree(ProjectsData()[i])
    ensures forall i :: 0 <= i < |ProjectsData()| ==> SecureUrl(ProjectsData()[i])
  {
    var r := ProjectsData();
    forall i | 0 <= i < |r| ensures SecureUrl(r[i]) {
      assert r[i].embedUrl.Some? ==> r[i].embedUrl.value[..8] == "https://";
    }
  }

  /** 'epluribus' is the one record without an embed. */
  lemma OnlyEpluribusLacksEmbed()
    ensures forall i :: 0 <= i < |ProjectsData()| ==>
      (!ProjectsData()[i].hasEmbed <==> ProjectsData()[i].id == "epluribus")
  {
    var r := ProjectsData();
    assert forall i :: 0 <= i < 5 ==> r[i].id[0] != 'e';
  }
}
