/** A worked search over a three-application catalog: a keyword found only in
    one description, a keyword found in one name but written in upper case,
    and a keyword found nowhere, which is an empty success and not an error. */
module SearchExample {
  import opened Wrappers
  import opened Text
  import opened Catalog

  function App(name: string, desc: string): AppInfo
  {
    AppInfo(name, desc, None, None, None, None, None, None)
  }

  const Blender: AppInfo := App("Blender", "3D tool")
  const Gimp: AppInfo := App("GIMP", "image editor")
  const Krita: AppInfo := App("Krita", "digital painting")

  /** A network whose every request gets the three-application listing. */
  function Serving(apps: seq<AppInfo>): Network
  {
    Network(None, (url: string) => Response(200, Some("OK"), Decoded(apps)))
  }

  // The lower-case forms of the three names and descriptions.

  lemma BlenderLower()
    ensures Lower(Blender.name) == "blender" && Lower(Blender.desc) == "3d tool"
  {
    LowerPointwise("Blender", "blender");
    LowerPointwise("3D tool", "3d tool");
  }

  lemma GimpLower()
    ensures Lower(Gimp.name) == "gimp" && Lower(Gimp.desc) == "image editor"
  {
    LowerPointwise("GIMP", "gimp");
    LowerPointwise("image editor", "image editor");
  }

  lemma KritaLower()
    ensures Lower(Krita.name) == "krita" && Lower(Krita.desc) == "digital painting"
  {
    LowerPointwise("Krita", "krita");
    LowerPointwise("digital painting", "digital painting");
  }

  /** Filtering the three applications keeps those the keyword matches. */
  lemma FilterThree(k: string)
    ensures Filter([Blender, Gimp, Krita], k) ==
              (if Matches(Blender, k) then [Blender] else [])
              + (if Matches(Gimp, k) then [Gimp] else [])
              + (if Matches(Krita, k) then [Krita] else [])
  {
    var apps := [Blender, Gimp, Krita];
    assert apps[0] == Blender && apps[1..] == [Gimp, Krita];
    assert [Gimp, Krita][0] == Gimp && [Gimp, Krita][1..] == [Krita];
    assert [Krita][0] == Krita && [Krita][1..] == [];
    assert Filter([Krita], k) == (if Matches(Krita, k) then [Krita] else []);
    assert Filter([Gimp, Krita], k) == (if Matches(Gimp, k) then [Gimp] else []) + Filter([Krita], k);
  }

  /** The catalog fetched for a search is the listing served. */
  lemma FetchServed(api: Api, apps: seq<AppInfo>)
    ensures FetchAppList(api, "all", Serving(apps)).result == Success(apps)
  {
    AllIsValid();
  }

  /** GIMP's description starts with "image". */
  lemma GimpMatchesImage()
    ensures Matches(Gimp, "image")
  {
    GimpLower();
    assert StartsWith("image editor", "image");
  }

  /** Blender's name starts with "blend". */
  lemma BlenderMatchesBlend()
    ensures Matches(Blender, "blend")
  {
    BlenderLower();
    assert StartsWith("blender", "blend");
  }

  /** Blender is not found by a keyword with a character that neither
      "blender" nor "3d tool" has. */
  lemma BlenderMisses(kw: string, k: int)
    requires 0 <= k < |kw| && kw[k] !in "blender" && kw[k] !in "3d tool"
    ensures !Matches(Blender, kw)
  {
    BlenderLower();
    NoMatchWithoutChar(Blender, kw, k);
  }

  /** GIMP is not found by a keyword with a character that neither "gimp"
      nor "image editor" has. */
  lemma GimpMisses(kw: string, k: int)
    requires 0 <= k < |kw| && kw[k] !in "gimp" && kw[k] !in "image editor"
    ensures !Matches(Gimp, kw)
  {
    GimpLower();
    NoMatchWithoutChar(Gimp, kw, k);
  }

  /** Krita is not found by a keyword with a character that neither "krita"
      nor "digital painting" has. */
  lemma KritaMisses(kw: string, k: int)
    requires 0 <= k < |kw| && kw[k] !in "krita" && kw[k] !in "digital painting"
    ensures !Matches(Krita, kw)
  {
    KritaLower();
    NoMatchWithoutChar(Krita, kw, k);
  }

  /** "image" only occurs in GIMP's description. */
  lemma SearchImage(api: Api)
    ensures SearchApps(api, "image", Serving([Blender, Gimp, Krita])).result == Success([Gimp])
  {
    FetchServed(api, [Blender, Gimp, Krita]);
    LowerPointwise("image", "image");
    BlenderMisses("image", 0);
    GimpMatchesImage();
    KritaMisses("image", 1);
    FilterThree("image");
    assert Filter([Blender, Gimp, Krita], "image") == [Gimp];
  }

  /** "BLEND" finds Blender although the name is written differently. */
  lemma SearchBlend(api: Api)
    ensures SearchApps(api, "BLEND", Serving([Blender, Gimp, Krita])).result == Success([Blender])
  {
    FetchServed(api, [Blender, Gimp, Krita]);
    LowerPointwise("BLEND", "blend");
    BlenderMatchesBlend();
    GimpMisses("blend", 0);
    KritaMisses("blend", 0);
    FilterThree("blend");
    assert Filter([Blender, Gimp, Krita], "blend") == [Blender];
  }

  /** "xyz" matches nothing: an empty list, not an error. */
  lemma SearchNothing(api: Api)
    ensures SearchApps(api, "xyz", Serving([Blender, Gimp, Krita])).result == Success([])
  {
    FetchServed(api, [Blender, Gimp, Krita]);
    LowerPointwise("xyz", "xyz");
    BlenderMisses("xyz", 0);
    GimpMisses("xyz", 0);
    KritaMisses("xyz", 0);
    FilterThree("xyz");
  }
}
