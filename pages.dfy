/** `entryHtmlPlugins`: one page per entry except the shared chunk `app`. Each page is rendered
    from its own template and loads its own chunk and the shared one. Only the options handed to
    `HtmlWebpackPlugin` are modelled. */
module Pages {
  import opened Seqs
  import opened JsObjects

  /** The reserved entry that every page loads and that gets no page of its own. */
  const SharedChunk: string := "app"
  const TemplateDir: string := "src/pug/"
  const PageSuffix: string := ".html"
  const TemplateSuffix: string := ".pug"

  /** The options `{ filename, template, chunks }` of one `HtmlWebpackPlugin`. */
  datatype HtmlPageOptions = HtmlPageOptions(filename: string, template: string, chunks: seq<string>)

  /** The filter test `allKey != 'app'`. */
  predicate NotShared(key: string) {
    key != SharedChunk
  }

  /** The `map` callback for the entry `entryName`. */
  function PageFor(entryName: string): (page: HtmlPageOptions)
    ensures PageName(page) == entryName
  {
    HtmlPageOptions(entryName + PageSuffix, TemplateDir + entryName + TemplateSuffix, [entryName, SharedChunk])
  }

  /** The entry a page is for: the first chunk it loads. */
  function PageName(page: HtmlPageOptions): string {
    if |page.chunks| > 0 then page.chunks[0] else ""
  }

  function PageNames(pages: seq<HtmlPageOptions>): (names: seq<string>)
    ensures |names| == |pages|
    ensures forall i | 0 <= i < |pages| :: names[i] == PageName(pages[i])
  {
    Map(PageName, pages)
  }

  /** `Object.keys(entryPoint).filter(...).map(...)`: one page per key other than `app`, in key
      order, each named, templated and chunked after its key. */
  function EntryHtmlPlugins(entry: PlainObject): (pages: seq<HtmlPageOptions>)
    requires entry.Valid()
    ensures |pages| == |entry.props| - (if SharedChunk in entry.props then 1 else 0)
    ensures forall i | 0 <= i < |pages| ::
              var n := PageName(pages[i]);
              && n in entry.props && n != SharedChunk
              && pages[i].filename == n + ".html"
              && pages[i].template == "src/pug/" + n + ".pug"
              && pages[i].chunks == [n, "app"]
    ensures forall n | n in entry.props && n != SharedChunk :: n in PageNames(pages)
    ensures PageNames(pages) == Filter(NotShared, Keys(entry))
  {
    var names := Filter(NotShared, Keys(entry));
    var pages := Map(PageFor, names);
    FilterOutOne(NotShared, SharedChunk, Keys(entry));
    assert PageNames(pages) == names;
    pages
  }

  /** No two pages are written to the same file or rendered from the same template. */
  lemma PageFilesDistinct(entry: PlainObject)
    requires entry.Valid()
    ensures Distinct(Map(PageFileName, EntryHtmlPlugins(entry)))
    ensures Distinct(Map(PageTemplate, EntryHtmlPlugins(entry)))
  {
    var pages := EntryHtmlPlugins(entry);
    FilterDistinct(NotShared, Keys(entry));
    forall i, j | 0 <= i < j < |pages| ensures pages[i].filename != pages[j].filename {
      assert PageNames(pages)[i] != PageNames(pages)[j];
      var a, b := PageName(pages[i]), PageName(pages[j]);
      assert pages[i].filename[..|a|] == a;
      if |a| == |b| {
        assert pages[j].filename[..|b|] == b;
      } else {
        assert |pages[i].filename| != |pages[j].filename|;
      }
    }
    forall i, j | 0 <= i < j < |pages| ensures pages[i].template != pages[j].template {
      assert PageNames(pages)[i] != PageNames(pages)[j];
      var a, b := PageName(pages[i]), PageName(pages[j]);
      assert pages[i].template[|TemplateDir|..|TemplateDir| + |a|] == a;
      if |a| == |b| {
        assert pages[j].template[|TemplateDir|..|TemplateDir| + |b|] == b;
      } else {
        assert |pages[i].template| != |pages[j].template|;
      }
    }
  }

  function PageFileName(page: HtmlPageOptions): string {
    page.filename
  }

  function PageTemplate(page: HtmlPageOptions): string {
    page.template
  }

  /** Entries holding only the shared chunk give no page at all. */
  lemma SharedOnlyNoPages(entry: PlainObject)
    requires entry.Valid() && entry.props.Keys == {SharedChunk}
    ensures EntryHtmlPlugins(entry) == []
  {
    assert |entry.props| == |entry.props.Keys| == 1;
  }
}
