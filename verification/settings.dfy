/** The manifest logic of src/settings.cpp: the built-in configuration, the lists read out of
    JSON values, the field upsert, loading the settings from a manifest, validating a
    manifest, and deciding which documents `set_project_settings` changes. Files, the
    license download and process execution are not part of this model. */
module Settings {
  import opened Base
  import opened Json

  /** The settings a manifest carries (the fields settings.cpp reads and writes). */
  datatype ManiSettings = ManiSettings(
    language: string,
    packageManager: string,
    license: string,
    projectName: string,
    projectDescription: string,
    projectVersion: string,
    jsMainSrc: string,
    jsRuntime: string,
    author: string)

  /** `manifest_defaults` as declared. */
  const MANIFEST_DEFAULTS: ManiSettings :=
    ManiSettings("", "", "", "", "", "v0.0.1", "src/main.js", "", "Name <email@example.com>")

  /** The setting stored under a manifest field name ("" for names that are no setting). */
  function Setting(s: ManiSettings, name: string): string {
    if name == "language" then s.language
    else if name == "package_manager" then s.packageManager
    else if name == "license" then s.license
    else if name == "project_name" then s.projectName
    else if name == "project_description" then s.projectDescription
    else if name == "project_version" then s.projectVersion
    else if name == "author" then s.author
    else ""
  }

  /** The seven string fields a manifest must have. */
  const MANIFEST_FIELDS: seq<string> :=
    ["language", "package_manager", "license", "project_name", "project_description", "project_version", "author"]

  // ---------------------------------------------------------------------------------------
  // The built-in configuration (`config_json`)

  const LICENSES: seq<string> := [
    "Apache-2.0", "BSD-2-Clause", "BSD-3-Clause",
    "GPL-2.0-only", "GPL-2.0-or-later", "GPL-3.0-only",
    "GPL-3.0-or-later", "LGPL-2.1-only", "LGPL-2.1-or-later",
    "LGPL-3.0-only", "LGPL-3.0-or-later", "MIT",
    "MPL-2.0", "AGPL-3.0-only", "AGPL-3.0-or-later",
    "EPL-1.0", "EPL-2.0", "CDDL-1.0",
    "Unlicense", "CC0-1.0", "Custom"]

  /** A JSON array of strings. */
  function Strings(ss: seq<string>): (a: Json)
    ensures a.Array? && |a.elems| == |ss|
    ensures forall i | 0 <= i < |ss| :: a.elems[i] == Str(ss[i])
  {
    Array(seq(|ss|, i requires 0 <= i < |ss| => Str(ss[i])))
  }

  const LANGUAGES: Json := Object([
    Member("javascript", Object([
      Member("package_managers", Strings(["npm", "yarn", "pnpm"])),
      Member("js_runtimes", Strings(["node", "bun", "deno", "qjs", "d8", "jsc", "js"]))])),
    Member("rust", Object([Member("package_managers", Array([]))])),
    Member("c++", Object([Member("package_managers", Array([]))]))])

  const CONFIG: Json := Object([Member("languages", LANGUAGES), Member("licenses", Strings(LICENSES))])

  // ---------------------------------------------------------------------------------------
  // vec_from_members and vec_from_array

  /** The member names of an object, in order; nothing for any other value. */
  function MemberNames(v: Json): (names: seq<string>)
    ensures v.Object? ==> |names| == |v.members| && forall i | 0 <= i < |names| :: names[i] == v.members[i].name
    ensures !v.Object? ==> names == []
  {
    if v.Object? then seq(|v.members|, i requires 0 <= i < |v.members| => v.members[i].name) else []
  }

  /** The string elements of a sequence of values, in order. */
  function StringsOf(elems: seq<Json>): seq<string> {
    if elems == [] then []
    else
      var last := elems[|elems| - 1];
      StringsOf(elems[..|elems| - 1]) + (if last.Str? then [last.s] else [])
  }

  /** The string elements of an array; nothing for any other value. */
  function StringElems(v: Json): seq<string> {
    if v.Array? then StringsOf(v.elems) else []
  }

  /** A name is listed exactly when the object has a member of that name. */
  lemma MemberNamesIff(v: Json, name: string)
    ensures name in MemberNames(v) <==> v.Object? && HasMember(v.members, name)
  {
    if v.Object? {
      HasMemberIff(v.members, name);
      if name in MemberNames(v) {
        var i :| 0 <= i < |MemberNames(v)| && MemberNames(v)[i] == name;
        assert v.members[i].name == name;
      }
    }
  }

  /** The string list of a concatenation is the concatenation of the string lists:
      the order is kept and every element is looked at once. */
  lemma {:induction false} StringsOfAppend(a: seq<Json>, b: seq<Json>)
    ensures StringsOf(a + b) == StringsOf(a) + StringsOf(b)
    decreases |b|
  {
    if b == [] {
      assert a + b == a;
    } else {
      var b' := b[..|b| - 1];
      assert (a + b)[..|a + b| - 1] == a + b';
      StringsOfAppend(a, b');
    }
  }

  /** A string is listed exactly when it is an element of the array. */
  lemma {:induction false} StringsOfIff(elems: seq<Json>, s: string)
    ensures s in StringsOf(elems) <==> Str(s) in elems
  {
    if elems != [] {
      var init := elems[..|elems| - 1];
      StringsOfIff(init, s);
      assert elems == init + [elems[|elems| - 1]];
    }
  }

  /** A string is listed exactly when the value is an array holding it. */
  lemma StringElemsIff(v: Json, s: string)
    ensures s in StringElems(v) <==> v.Array? && Str(s) in v.elems
  {
    if v.Array? {
      StringsOfIff(v.elems, s);
    }
  }

  /** vec_from_members. */
  method VecFromMembers(v: Json) returns (keys: seq<string>)
    ensures v.Object? ==> |keys| == |v.members| && forall i | 0 <= i < |keys| :: keys[i] == v.members[i].name
    ensures !v.Object? ==> keys == []
  {
    keys := [];
    if !v.Object? {
      return;
    }
    var i := 0;
    while i < |v.members|
      invariant i <= |v.members|
      invariant |keys| == i
      invariant forall j | 0 <= j < i :: keys[j] == v.members[j].name
    {
      keys := keys + [v.members[i].name];
      i := i + 1;
    }
  }

  /** vec_from_array: the string elements in order, non-strings skipped. */
  method VecFromArray(v: Json) returns (keys: seq<string>)
    ensures keys == StringElems(v)
  {
    keys := [];
    if !v.Array? {
      return;
    }
    var i := 0;
    while i < |v.elems|
      invariant i <= |v.elems|
      invariant keys == StringsOf(v.elems[..i])
    {
      var e := v.elems[i];
      assert v.elems[..i + 1][..i] == v.elems[..i];
      if e.Str? {
        keys := keys + [e.s];
      }
      i := i + 1;
    }
    assert v.elems[..i] == v.elems;
  }

  // ---------------------------------------------------------------------------------------
  // update_json_field

  /** The members after `field` is set to the string `value`: the first member of that name
      gets the new value in place, or a member is appended when there is none. */
  function Upsert(ms: seq<Member>, field: string, value: string): seq<Member> {
    if HasMember(ms, field) then ms[FindMember(ms, field) := Member(field, Str(value))]
    else ms + [Member(field, Str(value))]
  }

  /** Two member lists with the same names in the same places find every name at the same index. */
  lemma SameNamesSameIndex(a: seq<Member>, b: seq<Member>, name: string)
    requires |a| == |b|
    requires forall i | 0 <= i < |a| :: a[i].name == b[i].name
    ensures FindMember(a, name) == FindMember(b, name)
  {
  }

  /** Appending a member does not move the first member of a name already present. */
  lemma FindAfterAppend(ms: seq<Member>, m: Member, name: string)
    ensures HasMember(ms, name) ==> FindMember(ms + [m], name) == FindMember(ms, name)
    ensures !HasMember(ms, name) && m.name == name ==> FindMember(ms + [m], name) == |ms|
    ensures !HasMember(ms, name) && m.name != name ==> !HasMember(ms + [m], name)
  {
    assert forall j | 0 <= j < |ms| :: (ms + [m])[j] == ms[j];
    assert (ms + [m])[|ms|] == m;
  }

  /** update_json_field: afterwards the field reads as the value; an existing field is changed
      in place with the member count and every other member unchanged, a missing one is
      appended; every other name reads as before. */
  lemma UpsertSpec(ms: seq<Member>, field: string, value: string)
    ensures Get(Upsert(ms, field, value), field) == Str(value)
    ensures HasMember(ms, field) ==>
      |Upsert(ms, field, value)| == |ms| &&
      forall i | 0 <= i < |ms| && i != FindMember(ms, field) :: Upsert(ms, field, value)[i] == ms[i]
    ensures !HasMember(ms, field) ==> Upsert(ms, field, value) == ms + [Member(field, Str(value))]
    ensures forall g | g != field :: Get(Upsert(ms, field, value), g) == Get(ms, g)
  {
    var u := Upsert(ms, field, value);
    if HasMember(ms, field) {
      forall g | true
        ensures FindMember(u, g) == FindMember(ms, g)
      {
        SameNamesSameIndex(u, ms, g);
      }
    } else {
      forall g | true
        ensures g != field ==> Get(u, g) == Get(ms, g)
      {
        FindAfterAppend(ms, Member(field, Str(value)), g);
        if g != field && HasMember(ms, g) {
          assert u[FindMember(ms, g)] == ms[FindMember(ms, g)];
        }
      }
      FindAfterAppend(ms, Member(field, Str(value)), field);
    }
  }

  /** update_json_field on a document changed in place. */
  method UpdateJsonField(doc: Document, field: string, value: string)
    modifies doc
    ensures doc.members == Upsert(old(doc.members), field, value)
  {
    if HasMember(doc.members, field) {
      var i := FindMember(doc.members, field);
      doc.members := doc.members[i := Member(field, Str(value))];
    } else {
      doc.members := doc.members + [Member(field, Str(value))];
    }
  }

  // ---------------------------------------------------------------------------------------
  // Loading the settings (the field-reading part of Manifest::Manifest)

  /** The document has the field as a string. */
  predicate IsString(doc: seq<Member>, name: string) {
    HasMember(doc, name) && Get(doc, name).Str?
  }

  /** The field's string when it has one, else the current setting. */
  function StringOr(doc: seq<Member>, name: string, current: string): string {
    if IsString(doc, name) then Get(doc, name).s else current
  }

  /** What loading ends in: the settings, or the undefined `GetString` on a "javascript"
      object without a string "runtime". */
  datatype Load = Loaded(settings: ManiSettings) | RuntimeFault

  /** The defaults with each of the seven fields the document has as a string put in. */
  function Overlay(doc: seq<Member>, defaults: ManiSettings): ManiSettings {
    defaults.(
      language := StringOr(doc, "language", defaults.language),
      packageManager := StringOr(doc, "package_manager", defaults.packageManager),
      license := StringOr(doc, "license", defaults.license),
      projectName := StringOr(doc, "project_name", defaults.projectName),
      projectDescription := StringOr(doc, "project_description", defaults.projectDescription),
      projectVersion := StringOr(doc, "project_version", defaults.projectVersion),
      author := StringOr(doc, "author", defaults.author))
  }

  /** The settings read from a manifest: an empty object leaves the defaults; otherwise each
      of the seven fields present as a string replaces its default, and a "javascript"
      object supplies the runtime. */
  function LoadSettings(doc: seq<Member>, defaults: ManiSettings): Load {
    if doc == [] then Loaded(defaults)
    else
      var s := Overlay(doc, defaults);
      if HasMember(doc, "javascript") && Get(doc, "javascript").Object? then
        var runtime := Field(Get(doc, "javascript"), "runtime");
        if runtime.Str? then Loaded(s.(jsRuntime := runtime.s)) else RuntimeFault
      else Loaded(s)
  }

  /** A default is overridden exactly by a field present as a string, the main source path is
      never read, the runtime comes only from a "javascript" object, and loading fails only on
      such an object without a string "runtime". */
  lemma LoadSpec(doc: seq<Member>, defaults: ManiSettings, name: string)
    requires name in MANIFEST_FIELDS
    ensures LoadSettings(doc, defaults).RuntimeFault? <==>
      doc != [] && Get(doc, "javascript").Object? && !Field(Get(doc, "javascript"), "runtime").Str?
    ensures doc == [] ==> LoadSettings(doc, defaults) == Loaded(defaults)
    ensures var r := LoadSettings(doc, defaults);
      r.Loaded? ==>
        Setting(r.settings, name) == (if doc != [] && IsString(doc, name) then Get(doc, name).s else Setting(defaults, name)) &&
        r.settings.jsMainSrc == defaults.jsMainSrc &&
        (doc != [] && Get(doc, "javascript").Object? ==> r.settings.jsRuntime == Field(Get(doc, "javascript"), "runtime").s) &&
        (doc == [] || !Get(doc, "javascript").Object? ==> r.settings.jsRuntime == defaults.jsRuntime)
  {
    OverlaySetting(doc, defaults, name);
  }

  /** The overlay takes a field exactly when the document has it as a string. */
  lemma OverlaySetting(doc: seq<Member>, defaults: ManiSettings, name: string)
    requires name in MANIFEST_FIELDS
    ensures var o := Overlay(doc, defaults);
      && Setting(o, name) == (if IsString(doc, name) then Get(doc, name).s else Setting(defaults, name))
      && forall runtime :: Setting(o.(jsRuntime := runtime), name) == Setting(o, name)
  {
  }

  /** One `if` of the constructor: take the field when it is a string. */
  method ReadString(doc: Document, name: string, current: string) returns (v: string)
    ensures v == StringOr(doc.members, name, current)
  {
    v := current;
    if HasMember(doc.members, name) && Get(doc.members, name).Str? {
      v := Get(doc.members, name).s;
    }
  }

  /** The constructor's field reading, one `if` per field. */
  method LoadManifest(doc: Document, defaults: ManiSettings) returns (r: Load)
    ensures r == LoadSettings(doc.members, defaults)
  {
    var s := defaults;
    if doc.ObjectEmpty() {
      return Loaded(s);
    }
    var language := ReadString(doc, "language", s.language);
    var packageManager := ReadString(doc, "package_manager", s.packageManager);
    var license := ReadString(doc, "license", s.license);
    var projectName := ReadString(doc, "project_name", s.projectName);
    var projectDescription := ReadString(doc, "project_description", s.projectDescription);
    var projectVersion := ReadString(doc, "project_version", s.projectVersion);
    var author := ReadString(doc, "author", s.author);
    s := s.(language := language, packageManager := packageManager, license := license,
            projectName := projectName, projectDescription := projectDescription,
            projectVersion := projectVersion, author := author);
    assert s == Overlay(doc.members, defaults);
    if HasMember(doc.members, "javascript") && Get(doc.members, "javascript").Object? {
      var runtime := Field(Get(doc.members, "javascript"), "runtime");
      if !runtime.Str? {
        return RuntimeFault;
      }
      s := s.(jsRuntime := runtime.s);
    }
    r := Loaded(s);
  }

  // ---------------------------------------------------------------------------------------
  // validate_manifest

  /** How validation ends: accepted, or `die` with the field it names or the kind of value
      it rejects. */
  datatype Verdict = Valid | MissingField(name: string) | InvalidLanguage | InvalidPackageManager | InvalidLicense

  /** validate_manifest against a configuration: the checks in order, each ending the program
      on failure. A missing description is reported under the name "project_name". */
  function ValidateManifest(config: Json, doc: seq<Member>, s: ManiSettings): Verdict {
    var languages := Field(config, "languages");
    if !IsString(doc, "language") then MissingField("language")
    else if !(languages.Object? && HasMember(languages.members, s.language)) then InvalidLanguage
    else if !IsString(doc, "package_manager") then MissingField("package_manager")
    else if s.packageManager !in StringElems(Field(Field(languages, s.language), "package_managers")) then InvalidPackageManager
    else if !IsString(doc, "license") then MissingField("license")
    else if s.license !in StringElems(Field(config, "licenses")) then InvalidLicense
    else if !IsString(doc, "project_name") then MissingField("project_name")
    else if !IsString(doc, "project_description") then MissingField("project_name")
    else if !IsString(doc, "project_version") then MissingField("project_version")
    else if !IsString(doc, "author") then MissingField("author")
    else Valid
  }

  /** A manifest is accepted exactly when all seven fields are strings, the language is a
      configured language, the package manager is one of that language's, and the license
      is a configured license. */
  lemma ValidateIff(config: Json, doc: seq<Member>, s: ManiSettings)
    ensures ValidateManifest(config, doc, s) == Valid <==>
      (forall name | name in MANIFEST_FIELDS :: IsString(doc, name)) &&
      s.language in MemberNames(Field(config, "languages")) &&
      s.packageManager in StringElems(Field(Field(Field(config, "languages"), s.language), "package_managers")) &&
      s.license in StringElems(Field(config, "licenses"))
  {
    MemberNamesIff(Field(config, "languages"), s.language);
    AllFieldsStrings(doc);
  }

  /** All seven fields are strings exactly when each of them is. */
  lemma AllFieldsStrings(doc: seq<Member>)
    ensures (forall name | name in MANIFEST_FIELDS :: IsString(doc, name)) <==>
      IsString(doc, "language") && IsString(doc, "package_manager") && IsString(doc, "license") &&
      IsString(doc, "project_name") && IsString(doc, "project_description") &&
      IsString(doc, "project_version") && IsString(doc, "author")
  {
    if IsString(doc, "language") && IsString(doc, "package_manager") && IsString(doc, "license") &&
       IsString(doc, "project_name") && IsString(doc, "project_description") &&
       IsString(doc, "project_version") && IsString(doc, "author")
    {
      forall name | name in MANIFEST_FIELDS ensures IsString(doc, name) {
        var i :| 0 <= i < |MANIFEST_FIELDS| && MANIFEST_FIELDS[i] == name;
      }
    }
  }

  /** A missing or non-string description is reported as a problem with "project_name". */
  lemma DescriptionReportedAsName(config: Json, doc: seq<Member>, s: ManiSettings)
    requires ValidateManifest(config, doc, s) == MissingField("project_name")
    ensures IsString(doc, "language") && IsString(doc, "package_manager") && IsString(doc, "license")
    ensures !IsString(doc, "project_name") || !IsString(doc, "project_description")
  {
  }

  /** The package managers configured for each language. */
  lemma ConfiguredPackageManagers(language: string)
    ensures language in MemberNames(LANGUAGES) <==> language in ["javascript", "rust", "c++"]
    ensures language == "javascript" ==>
      StringElems(Field(Field(LANGUAGES, language), "package_managers")) == ["npm", "yarn", "pnpm"]
    ensures language == "rust" || language == "c++" ==>
      StringElems(Field(Field(LANGUAGES, language), "package_managers")) == []
  {
    var pms := Strings(["npm", "yarn", "pnpm"]);
    assert pms.elems == [Str("npm"), Str("yarn"), Str("pnpm")];
    assert pms.elems[..2] == [Str("npm"), Str("yarn")];
    assert pms.elems[..2][..1] == [Str("npm")];
    assert pms.elems[..2][..1][..0] == [];
    assert StringsOf(pms.elems[..2][..1]) == ["npm"];
    assert StringsOf(pms.elems[..2]) == ["npm", "yarn"];
    assert StringsOf(pms.elems) == ["npm", "yarn", "pnpm"];
    assert Field(Field(LANGUAGES, "javascript"), "package_managers") == pms;
    assert MemberNames(LANGUAGES) == ["javascript", "rust", "c++"];
  }

  /** Under the built-in configuration only JavaScript manifests can be valid, since rust and
      c++ list no package manager, and an accepted manifest names npm, yarn or pnpm and one of
      the listed licenses. */
  lemma OnlyJavascriptValid(doc: seq<Member>, s: ManiSettings)
    requires ValidateManifest(CONFIG, doc, s) == Valid
    ensures s.language == "javascript"
    ensures s.packageManager in ["npm", "yarn", "pnpm"]
    ensures s.license in LICENSES
  {
    ValidateIff(CONFIG, doc, s);
    assert Field(CONFIG, "languages") == LANGUAGES;
    assert Field(CONFIG, "licenses") == Strings(LICENSES);
    ConfiguredPackageManagers(s.language);
    StringElemsIff(Strings(LICENSES), s.license);
    var i :| 0 <= i < |LICENSES| && Strings(LICENSES).elems[i] == Str(s.license);
  }

  /** Every manifest naming rust or c++ is rejected. */
  lemma RustAndCppRejected(doc: seq<Member>, s: ManiSettings)
    requires s.language == "rust" || s.language == "c++"
    ensures ValidateManifest(CONFIG, doc, s) != Valid
  {
    if ValidateManifest(CONFIG, doc, s) == Valid {
      OnlyJavascriptValid(doc, s);
    }
  }

  // ---------------------------------------------------------------------------------------
  // set_project_settings

  /** Both documents and the two "updated" flags. */
  datatype Docs = Docs(manifest: seq<Member>, packageJson: seq<Member>, manifestUpdated: bool, packageJsonUpdated: bool)

  /** A default asks for a change: it is set and differs from the current setting. */
  predicate Differs(default: string, current: string) {
    default != "" && current != default
  }

  /** One `if` of set_project_settings: when the default differs, write it into the manifest
      field and, for fields mirrored in package.json, into the package field too. */
  function Change(d: Docs, differs: bool, field: string, pkgField: Option<string>, value: string): Docs {
    if !differs then d
    else if pkgField.None? then d.(manifest := Upsert(d.manifest, field, value), manifestUpdated := true)
    else Docs(Upsert(d.manifest, field, value), Upsert(d.packageJson, pkgField.value, value), true, true)
  }

  /** The six checks of set_project_settings in order. */
  function ProjectUpdate(manifest: seq<Member>, packageJson: seq<Member>, current: ManiSettings, defaults: ManiSettings): Docs {
    var d0 := Docs(manifest, packageJson, false, false);
    var d1 := Change(d0, Differs(defaults.language, current.language), "language", None, defaults.language);
    var d2 := Change(d1, Differs(defaults.packageManager, current.packageManager), "package_manager", None, defaults.packageManager);
    var d3 := Change(d2, Differs(defaults.license, current.license), "license", None, defaults.license);
    var d4 := Change(d3, Differs(defaults.projectName, current.projectName), "project_name", Some("name"), defaults.projectName);
    var d5 := Change(d4, Differs(defaults.projectDescription, current.projectDescription), "project_description", Some("description"), defaults.projectDescription);
    Change(d5, Differs(defaults.author, current.author), "author", Some("author"), defaults.author)
  }

  /** The manifest fields set_project_settings may rewrite. */
  const CHANGED_FIELDS: seq<string> :=
    ["language", "package_manager", "license", "project_name", "project_description", "author"]

  /** One step sets its field(s) to the value when the default differs and changes nothing else. */
  lemma ChangeSpec(d: Docs, differs: bool, field: string, pkgField: Option<string>, value: string, g: string)
    ensures var r := Change(d, differs, field, pkgField, value);
      Get(r.manifest, g) == (if differs && g == field then Str(value) else Get(d.manifest, g)) &&
      Get(r.packageJson, g) == (if differs && pkgField == Some(g) then Str(value) else Get(d.packageJson, g)) &&
      r.manifestUpdated == (d.manifestUpdated || differs) &&
      r.packageJsonUpdated == (d.packageJsonUpdated || (differs && pkgField.Some?))
  {
    if differs {
      UpsertSpec(d.manifest, field, value);
      if pkgField.Some? {
        UpsertSpec(d.packageJson, pkgField.value, value);
      }
    }
  }

  /** The manifest is marked updated exactly when one of the six defaults asks for a change,
      package.json exactly when the name, description or author does. */
  lemma ProjectUpdateFlags(manifest: seq<Member>, packageJson: seq<Member>, current: ManiSettings, defaults: ManiSettings)
    ensures var r := ProjectUpdate(manifest, packageJson, current, defaults);
      (r.manifestUpdated <==>
        Differs(defaults.language, current.language) ||
        Differs(defaults.packageManager, current.packageManager) ||
        Differs(defaults.license, current.license) ||
        Differs(defaults.projectName, current.projectName) ||
        Differs(defaults.projectDescription, current.projectDescription) ||
        Differs(defaults.author, current.author)) &&
      (r.packageJsonUpdated <==>
        Differs(defaults.projectName, current.projectName) ||
        Differs(defaults.projectDescription, current.projectDescription) ||
        Differs(defaults.author, current.author))
  {
  }

  /** Afterwards every rewritten manifest field reads as its default and every other name
      reads as before. */
  lemma ManifestAfterUpdate(manifest: seq<Member>, packageJson: seq<Member>, current: ManiSettings, defaults: ManiSettings, g: string)
    ensures Get(ProjectUpdate(manifest, packageJson, current, defaults).manifest, g) ==
      (if g in CHANGED_FIELDS && Differs(Setting(defaults, g), Setting(current, g)) then Str(Setting(defaults, g))
       else Get(manifest, g))
  {
    ManifestSteps(manifest, packageJson, current, defaults, g);
    if g !in ["language", "package_manager", "license", "project_name", "project_description", "author"] {
      assert g !in CHANGED_FIELDS;
    }
  }

  /** The six steps on the manifest, field by field. */
  lemma {:induction false} ManifestSteps(manifest: seq<Member>, packageJson: seq<Member>, current: ManiSettings, defaults: ManiSettings, g: string)
    ensures Get(ProjectUpdate(manifest, packageJson, current, defaults).manifest, g) ==
      if g == "language" && Differs(defaults.language, current.language) then Str(defaults.language)
      else if g == "package_manager" && Differs(defaults.packageManager, current.packageManager) then Str(defaults.packageManager)
      else if g == "license" && Differs(defaults.license, current.license) then Str(defaults.license)
      else if g == "project_name" && Differs(defaults.projectName, current.projectName) then Str(defaults.projectName)
      else if g == "project_description" && Differs(defaults.projectDescription, current.projectDescription) then Str(defaults.projectDescription)
      else if g == "author" && Differs(defaults.author, current.author) then Str(defaults.author)
      else Get(manifest, g)
  {
    var d0 := Docs(manifest, packageJson, false, false);
    var d1 := Change(d0, Differs(defaults.language, current.language), "language", None, defaults.language);
    var d2 := Change(d1, Differs(defaults.packageManager, current.packageManager), "package_manager", None, defaults.packageManager);
    var d3 := Change(d2, Differs(defaults.license, current.license), "license", None, defaults.license);
    var d4 := Change(d3, Differs(defaults.projectName, current.projectName), "project_name", Some("name"), defaults.projectName);
    var d5 := Change(d4, Differs(defaults.projectDescription, current.projectDescription), "project_description", Some("description"), defaults.projectDescription);
    ChangeSpec(d0, Differs(defaults.language, current.language), "language", None, defaults.language, g);
    ChangeSpec(d1, Differs(defaults.packageManager, current.packageManager), "package_manager", None, defaults.packageManager, g);
    ChangeSpec(d2, Differs(defaults.license, current.license), "license", None, defaults.license, g);
    ChangeSpec(d3, Differs(defaults.projectName, current.projectName), "project_name", Some("name"), defaults.projectName, g);
    ChangeSpec(d4, Differs(defaults.projectDescription, current.projectDescription), "project_description", Some("description"), defaults.projectDescription, g);
    ChangeSpec(d5, Differs(defaults.author, current.author), "author", Some("author"), defaults.author, g);
  }

  /** Afterwards package.json's "name", "description" and "author" read as the corresponding
      defaults when those ask for a change, and every other name reads as before. */
  lemma {:induction false} PackageJsonAfterUpdate(manifest: seq<Member>, packageJson: seq<Member>, current: ManiSettings, defaults: ManiSettings, g: string)
    ensures Get(ProjectUpdate(manifest, packageJson, current, defaults).packageJson, g) ==
      if g == "name" && Differs(defaults.projectName, current.projectName) then Str(defaults.projectName)
      else if g == "description" && Differs(defaults.projectDescription, current.projectDescription) then Str(defaults.projectDescription)
      else if g == "author" && Differs(defaults.author, current.author) then Str(defaults.author)
      else Get(packageJson, g)
  {
    var d0 := Docs(manifest, packageJson, false, false);
    var d1 := Change(d0, Differs(defaults.language, current.language), "language", None, defaults.language);
    var d2 := Change(d1, Differs(defaults.packageManager, current.packageManager), "package_manager", None, defaults.packageManager);
    var d3 := Change(d2, Differs(defaults.license, current.license), "license", None, defaults.license);
    var d4 := Change(d3, Differs(defaults.projectName, current.projectName), "project_name", Some("name"), defaults.projectName);
    var d5 := Change(d4, Differs(defaults.projectDescription, current.projectDescription), "project_description", Some("description"), defaults.projectDescription);
    ChangeSpec(d0, Differs(defaults.language, current.language), "language", None, defaults.language, g);
    ChangeSpec(d1, Differs(defaults.packageManager, current.packageManager), "package_manager", None, defaults.packageManager, g);
    ChangeSpec(d2, Differs(defaults.license, current.license), "license", None, defaults.license, g);
    ChangeSpec(d3, Differs(defaults.projectName, current.projectName), "project_name", Some("name"), defaults.projectName, g);
    ChangeSpec(d4, Differs(defaults.projectDescription, current.projectDescription), "project_description", Some("description"), defaults.projectDescription, g);
    ChangeSpec(d5, Differs(defaults.author, current.author), "author", Some("author"), defaults.author, g);
  }

  /** When the current settings are the defaults (the header makes them one object), nothing
      is rewritten and neither file is marked updated. */
  lemma SameSettingsNoUpdate(manifest: seq<Member>, packageJson: seq<Member>, s: ManiSettings)
    ensures ProjectUpdate(manifest, packageJson, s, s) == Docs(manifest, packageJson, false, false)
  {
  }

  /** One `if` of set_project_settings on the documents: when the default is set and differs
      from the current setting, the field is written (in package.json too when it is mirrored
      there) and the flags are raised. */
  method ApplyChange(manifest: Document, packageJson: Document, default: string, current: string,
                     field: string, pkgField: Option<string>, manifestUpdated: bool, packageJsonUpdated: bool)
    returns (manifestUpdated': bool, packageJsonUpdated': bool)
    requires manifest != packageJson
    modifies manifest, packageJson
    ensures Docs(manifest.members, packageJson.members, manifestUpdated', packageJsonUpdated') ==
      Change(Docs(old(manifest.members), old(packageJson.members), manifestUpdated, packageJsonUpdated),
             Differs(default, current), field, pkgField, default)
  {
    manifestUpdated', packageJsonUpdated' := manifestUpdated, packageJsonUpdated;
    if default != "" && current != default {
      UpdateJsonField(manifest, field, default);
      manifestUpdated' := true;
      if pkgField.Some? {
        UpdateJsonField(packageJson, pkgField.value, default);
        packageJsonUpdated' := true;
      }
    }
  }

  /** set_project_settings on the two documents, changed in place. */
  method SetProjectSettings(manifest: Document, packageJson: Document, current: ManiSettings, defaults: ManiSettings)
    returns (manifestUpdated: bool, packageJsonUpdated: bool)
    requires manifest != packageJson
    modifies manifest, packageJson
    ensures Docs(manifest.members, packageJson.members, manifestUpdated, packageJsonUpdated) ==
      ProjectUpdate(old(manifest.members), old(packageJson.members), current, defaults)
  {
    manifestUpdated, packageJsonUpdated := false, false;
    manifestUpdated, packageJsonUpdated := ApplyChange(manifest, packageJson, defaults.language, current.language,
      "language", None, manifestUpdated, packageJsonUpdated);
    manifestUpdated, packageJsonUpdated := ApplyChange(manifest, packageJson, defaults.packageManager, current.packageManager,
      "package_manager", None, manifestUpdated, packageJsonUpdated);
    manifestUpdated, packageJsonUpdated := ApplyChange(manifest, packageJson, defaults.license, current.license,
      "license", None, manifestUpdated, packageJsonUpdated);
    manifestUpdated, packageJsonUpdated := ApplyChange(manifest, packageJson, defaults.projectName, current.projectName,
      "project_name", Some("name"), manifestUpdated, packageJsonUpdated);
    manifestUpdated, packageJsonUpdated := ApplyChange(manifest, packageJson, defaults.projectDescription, current.projectDescription,
      "project_description", Some("description"), manifestUpdated, packageJsonUpdated);
    manifestUpdated, packageJsonUpdated := ApplyChange(manifest, packageJson, defaults.author, current.author,
      "author", Some("author"), manifestUpdated, packageJsonUpdated);
  }
}
