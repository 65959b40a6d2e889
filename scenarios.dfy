/** The repository's own test cases, restated on an explicit filesystem. */
module Scenarios {
  import opened Errors
  import opened FileSystem
  import opened Strings
  import opened Walker
  import opened Embed
  import opened Assets
  import opened EndToEnd

  /** "This file is just a test.\n" */
  const AaaText: Bytes := [84, 104, 105, 115, 32, 102, 105, 108, 101, 32, 105, 115, 32, 106, 117, 115, 116,
                           32, 97, 32, 116, 101, 115, 116, 46, 10]

  /** "Hello world!\n" */
  const HelloText: Bytes := [72, 101, 108, 108, 111, 32, 119, 111, 114, 108, 100, 33, 10]

  function TemplatesListing(): seq<DirEntry>
  {
    [DirEntry("aaa.txt", ModeRegular), DirEntry("empty_file", ModeRegular), DirEntry("hello", ModeRegular)]
  }

  /** The example templates directory: two non-empty files and an empty one. */
  function TemplatesFs(): FS
  {
    FS(map[
         "example/templates" := Dir(TemplatesListing()),
         "example/templates/aaa.txt" := Regular(AaaText),
         "example/templates/empty_file" := Regular([]),
         "example/templates/hello" := Regular(HelloText)],
       {})
  }

  /** The map the generator test expects. */
  function TemplatesMap(): AssetMap
  {
    map["templates/aaa.txt" := Encode(AaaText),
        "templates/empty_file" := Encode([]),
        "templates/hello" := Encode(HelloText)]
  }

  /** One regular entry of a listing, read without error, is stored and the
      visit goes on with the rest of the listing. */
  lemma VisitRegularStep(fs: FS, strip: Path, store: Bytes -> Bytes, d: Path, es: seq<DirEntry>,
                         acc: AssetMap)
    requires es != [] && es[0].mode == ModeRegular && ReadFile(fs, Join(d, es[0].name)).Ok?
    ensures Visit(fs, strip, store, d, es, [], acc)
         == Visit(fs, strip, store, d, es[1..], [],
                  acc[TrimPrefix(Join(d, es[0].name), strip) := store(ReadFile(fs, Join(d, es[0].name)).value)])
  {
  }

  /** An entry of the templates directory is joined under it. */
  lemma TemplateEntryJoin(name: Name)
    ensures Join("example/templates", name) == "example/templates/" + name
  {
  }

  /** Stripping "example/" from such a path keys it under "templates/". */
  lemma TemplateEntryTrim(name: Name)
    ensures TrimPrefix("example/templates/" + name, "example/") == "templates/" + name
  {
    var p := "example/templates/" + name;
    assert p[..8] == "example/";
    assert p[8..] == "templates/" + name;
  }

  /** The path and the key of one entry, given as literals. */
  lemma TemplateEntry(name: Name, path: Path, key: Path)
    requires "example/templates/" + name == path && "templates/" + name == key
    ensures Join("example/templates", name) == path
    ensures TrimPrefix(Join("example/templates", name), "example/") == key
  {
    TemplateEntryJoin(name);
    TemplateEntryTrim(name);
  }

  /** Each regular file of the templates directory reads back its content. */
  lemma TemplateFileRead(p: Path)
    requires p in TemplatesFs().nodes && p != "example/templates"
    ensures ReadFile(TemplatesFs(), p) == Ok(TemplatesFs().nodes[p].content)
  {
  }

  lemma AaaNames()
    ensures "example/templates/" + "aaa.txt" == "example/templates/aaa.txt"
    ensures "templates/" + "aaa.txt" == "templates/aaa.txt"
  {
  }

  lemma AaaRead()
    ensures ReadFile(TemplatesFs(), "example/templates/aaa.txt") == Ok(AaaText)
  {
    TemplateFileRead("example/templates/aaa.txt");
  }

  lemma AaaEntry()
    ensures ReadFile(TemplatesFs(), Join("example/templates", "aaa.txt")) == Ok(AaaText)
    ensures TrimPrefix(Join("example/templates", "aaa.txt"), "example/") == "templates/aaa.txt"
  {
    AaaNames();
    TemplateEntry("aaa.txt", "example/templates/aaa.txt", "templates/aaa.txt");
    AaaRead();
  }

  lemma EmptyFileNames()
    ensures "example/templates/" + "empty_file" == "example/templates/empty_file"
    ensures "templates/" + "empty_file" == "templates/empty_file"
  {
  }

  lemma EmptyFileRead()
    ensures ReadFile(TemplatesFs(), "example/templates/empty_file") == Ok([])
  {
    TemplateFileRead("example/templates/empty_file");
  }

  lemma EmptyFileEntry()
    ensures ReadFile(TemplatesFs(), Join("example/templates", "empty_file")) == Ok([])
    ensures TrimPrefix(Join("example/templates", "empty_file"), "example/") == "templates/empty_file"
  {
    EmptyFileNames();
    TemplateEntry("empty_file", "example/templates/empty_file", "templates/empty_file");
    EmptyFileRead();
  }

  lemma HelloNames()
    ensures "example/templates/" + "hello" == "example/templates/hello"
    ensures "templates/" + "hello" == "templates/hello"
  {
  }

  lemma HelloRead()
    ensures ReadFile(TemplatesFs(), "example/templates/hello") == Ok(HelloText)
  {
    TemplateFileRead("example/templates/hello");
  }

  lemma HelloEntry()
    ensures ReadFile(TemplatesFs(), Join("example/templates", "hello")) == Ok(HelloText)
    ensures TrimPrefix(Join("example/templates", "hello"), "example/") == "templates/hello"
  {
    HelloNames();
    TemplateEntry("hello", "example/templates/hello", "templates/hello");
    HelloRead();
  }

  lemma VisitTemplates()
    ensures Visit(TemplatesFs(), "example/", Encode, "example/templates", TemplatesListing(), [], map[])
         == Ok(([], TemplatesMap()))
  {
    var fs, es := TemplatesFs(), TemplatesListing();
    AaaEntry();
    EmptyFileEntry();
    HelloEntry();
    var m1 := map["templates/aaa.txt" := Encode(AaaText)];
    var m2 := m1["templates/empty_file" := Encode([])];
    VisitRegularStep(fs, "example/", Encode, "example/templates", es, map[]);
    VisitRegularStep(fs, "example/", Encode, "example/templates", es[1..], m1);
    assert es[1..][1..] == es[2..];
    VisitRegularStep(fs, "example/", Encode, "example/templates", es[2..], m2);
    assert es[2..][1..] == [];
  }

  lemma TemplatesRootRead()
    ensures ReadDir(TemplatesFs(), "example/templates") == Ok(TemplatesListing())
  {
  }

  /** The walk from the templates directory visits it alone and collects its three files. */
  lemma EmbedTemplatesTree()
    ensures EmbedTree(TemplatesFs(), "example/templates", "example/") == Ok(TemplatesMap())
  {
    var fs := TemplatesFs();
    TemplatesRootRead();
    VisitTemplates();
    assert ["example/templates"][1..] == [];
    assert Walk(fs, "example/", Encode, [], TemplatesMap()) == Ok(TemplatesMap());
  }

  lemma TemplatesMapContents()
    ensures TemplatesMap().Keys == {"templates/aaa.txt", "templates/empty_file", "templates/hello"}
    ensures TemplatesMap()["templates/empty_file"] == []
    ensures TemplatesMap()["templates/aaa.txt"] == Encode(AaaText)
  {
  }

  /** Collecting the templates with prefix "example/" gives three keys under
      "templates/", a zero-length payload for the empty file and a payload that
      decompresses to the text of aaa.txt. */
  lemma EmbedTemplatesExample()
    ensures EmbedTree(TemplatesFs(), "example/templates", "example/").Ok?
    ensures var m := EmbedTree(TemplatesFs(), "example/templates", "example/").value;
            m.Keys == {"templates/aaa.txt", "templates/empty_file", "templates/hello"} &&
            m["templates/empty_file"] == [] &&
            Decompress(m["templates/aaa.txt"]) == Ok(AaaText)
  {
    EmbedTemplatesTree();
    TemplatesMapContents();
    DecompressEncode(AaaText);
  }

  /** The generator test: no package name given, so the collaborator's answer for
      the output's directory (here "assets") is used; the output prefix is kept.
      The run succeeds whenever "./example" can be collected and both renderings
      succeed, and then names the main file after the prefix. */
  method GenerateAssetsExample(fs: FS, render: (Template, TemplateData) -> Result<Bytes>)
    returns (g: Result<AssetGenerator>, files: Result<seq<AssetFile>>)
    ensures g == Ok(AssetGenerator("assets", "./example/assets/assets", "", false))
    ensures EmbedTree(fs, "./example", "").Ok? && (forall t, d :: render(t, d).Ok?) ==> files.Ok?
    ensures files.Ok? ==> |files.value| == 2 && files.value[0].path == "./example/assets/assets.go"
  {
    g := NewGenerator("", "./example/assets/assets", "", false, Ok("assets"));
    MergeOkIffAllCollected(RootResults(fs, "", ["./example"]), map[]);
    files := Generate(g.value, fs, ["./example"], render);
  }
}
