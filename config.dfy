/**
 * The role vocabulary shared by the report and the change processor:
 * Drive API role names and the names shown to users in the spreadsheets.
 */
module Config {
  import opened Text

  /** The API role names, in the dictionary's insertion order. */
  const ApiRoles: seq<string> := ["reader", "commenter", "writer", "fileOrganizer", "organizer", "owner"]

  /** API role name -> UI name. */
  const RoleMap: map<string, string> := map[
    "reader" := "Viewer",
    "commenter" := "Commenter",
    "writer" := "Editor",
    "fileOrganizer" := "File Organizer",
    "organizer" := "Organizer",
    "owner" := "Owner"
  ]

  /**
   * The API role a dictionary comprehension `{v: k for k, v in items}` keeps
   * for the UI name u: the last one, in insertion order, whose UI name is u.
   */
  function LastApiRoleFor(u: string, i: nat): string
    requires i <= |ApiRoles|
  {
    if i == 0 then ""
    else if ApiRoles[i - 1] in RoleMap && RoleMap[ApiRoles[i - 1]] == u then ApiRoles[i - 1]
    else LastApiRoleFor(u, i - 1)
  }

  /** UI name -> API role name, built by inverting RoleMap. */
  const ReverseRoleMap: map<string, string> := map u | u in RoleMap.Values :: LastApiRoleFor(u, |ApiRoles|)

  /** The map holds exactly the six API roles, each with its UI name. */
  lemma RoleMapContents()
    ensures RoleMap.Keys == {"reader", "commenter", "writer", "fileOrganizer", "organizer", "owner"}
    ensures |RoleMap| == 6
    ensures RoleMap.Values == {"Viewer", "Commenter", "Editor", "File Organizer", "Organizer", "Owner"}
  {
    assert RoleMap.Keys == {"reader", "commenter", "writer", "fileOrganizer", "organizer", "owner"};
  }

  /** The inverse pairs every UI name with the one API role that has it. */
  lemma ReverseRoleMapContents()
    ensures ReverseRoleMap == map[
      "Viewer" := "reader",
      "Commenter" := "commenter",
      "Editor" := "writer",
      "File Organizer" := "fileOrganizer",
      "Organizer" := "organizer",
      "Owner" := "owner"
    ]
  {
    ReverseRoleMapKeys();
    InverseLookups();
    assert ReverseRoleMap["Viewer"] == "reader";
    assert ReverseRoleMap["Commenter"] == "commenter";
    assert ReverseRoleMap["Editor"] == "writer";
    assert ReverseRoleMap["File Organizer"] == "fileOrganizer";
    assert ReverseRoleMap["Organizer"] == "organizer";
    assert ReverseRoleMap["Owner"] == "owner";
  }

  /** The inverse is keyed by the six UI names. */
  lemma ReverseRoleMapKeys()
    ensures ReverseRoleMap.Keys == {"Viewer", "Commenter", "Editor", "File Organizer", "Organizer", "Owner"}
  {
    RoleMapContents();
  }

  lemma InverseLookups()
    ensures LastApiRoleFor("Viewer", 6) == "reader"
    ensures LastApiRoleFor("Commenter", 6) == "commenter"
    ensures LastApiRoleFor("Editor", 6) == "writer"
    ensures LastApiRoleFor("File Organizer", 6) == "fileOrganizer"
    ensures LastApiRoleFor("Organizer", 6) == "organizer"
    ensures LastApiRoleFor("Owner", 6) == "owner"
  {
  }

  /** Looking an API role's UI name up in the inverse gives back the API role. */
  lemma ReverseAfterForward(r: string)
    requires r in RoleMap
    ensures RoleMap[r] in ReverseRoleMap && ReverseRoleMap[RoleMap[r]] == r
  {
    ReverseRoleMapContents();
  }

  /**
   * The UI names are distinct, so the inverse has six entries and looking a UI
   * name up in both directions gives it back.
   */
  lemma ForwardAfterReverse(u: string)
    requires u in ReverseRoleMap
    ensures ReverseRoleMap[u] in RoleMap && RoleMap[ReverseRoleMap[u]] == u
    ensures |ReverseRoleMap| == 6
  {
    ReverseRoleMapContents();
    assert ReverseRoleMap.Keys == {"Viewer", "Commenter", "Editor", "File Organizer", "Organizer", "Owner"};
  }

  /** Every UI name is already title-cased and has no surrounding white space. */
  lemma UiNameIsTitled(u: string)
    requires u in ReverseRoleMap
    ensures Title(u) == u && Strip(u) == u
    ensures |u| > 0 && IsLetter(u[0]) && IsLetter(u[|u| - 1])
  {
    ReverseRoleMapContents();
    assert u in {"Viewer", "Commenter", "Editor", "File Organizer", "Organizer", "Owner"};
    if u == "Viewer" {
      ViewerIsTitled();
    } else if u == "Commenter" {
      CommenterIsTitled();
    } else if u == "Editor" {
      EditorIsTitled();
    } else if u == "File Organizer" {
      FileOrganizerIsTitled();
    } else if u == "Organizer" {
      OrganizerIsTitled();
    } else {
      OwnerIsTitled();
    }
  }

  lemma ViewerIsTitled()
    ensures PlainName("Viewer")
  {
    NameIsTitled("Viewer");
  }

  lemma CommenterIsTitled()
    ensures PlainName("Commenter")
  {
    NameIsTitled("Commenter");
  }

  lemma EditorIsTitled()
    ensures PlainName("Editor")
  {
    NameIsTitled("Editor");
  }

  lemma FileOrganizerIsTitled()
    ensures PlainName("File Organizer")
  {
    NameIsTitled("File Organizer");
  }

  lemma OrganizerIsTitled()
    ensures PlainName("Organizer")
  {
    NameIsTitled("Organizer");
  }

  lemma OwnerIsTitled()
    ensures PlainName("Owner")
  {
    NameIsTitled("Owner");
  }

  /** A name title-casing and stripping leave alone, beginning and ending with a letter. */
  predicate PlainName(u: string) {
    Title(u) == u && Strip(u) == u && |u| > 0 && IsLetter(u[0]) && IsLetter(u[|u| - 1])
  }

  lemma NameIsTitled(u: string)
    requires TitledFrom(u, 0) && |u| > 0 && IsLetter(u[0]) && IsLetter(u[|u| - 1])
    ensures PlainName(u)
  {
    TitledUnchanged(u);
    StripUnchanged(u);
  }
}
