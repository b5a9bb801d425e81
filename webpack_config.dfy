/** The exported configuration, reduced to the parts computed from the scripts listing and the
    mode: the entry object, the output names, and the plugin list with one page plugin per
    non-shared entry after the four fixed plugins. The fixed plugins are opaque here apart from
    the options that depend on the mode. */
module WebpackConfig {
  import opened Seqs
  import opened JsObjects
  import opened Entries
  import opened Pages
  import opened Mode

  /** The output directories `CleanWebpackPlugin` empties. */
  const PathsToClean: seq<string> := ["dist"]

  datatype Plugin =
    | ProvideGlobals                               // webpack.ProvidePlugin
    | Favicons                                     // FaviconsWebpackPlugin
    | Clean(paths: seq<string>)                    // CleanWebpackPlugin
    | ExtractText(filename: string, disable: bool) // ExtractTextPlugin
    | HtmlPage(options: HtmlPageOptions)           // HtmlWebpackPlugin

  datatype Config = Config(
    entry: PlainObject,
    outputFilename: string,
    publicPath: string,
    fontPublicPath: string,
    pugPretty: bool,
    plugins: seq<Plugin>)

  function AsPlugin(options: HtmlPageOptions): Plugin {
    HtmlPage(options)
  }

  /** `module.exports` for the scripts listing `listing` in the mode `isProd`: the four fixed
      plugins come first, then one page plugin per page, in page order. */
  function BuildConfig(listing: seq<string>, isProd: bool): (c: Config)
    ensures c.entry == GetEntries(listing)
    ensures |c.plugins| == 4 + |EntryHtmlPlugins(c.entry)|
    ensures c.plugins[..4] == [ProvideGlobals, Favicons, Clean(["dist"]), ExtractText(SelectMode(isProd).cssFilename, !isProd)]
    ensures forall i | 0 <= i < |c.plugins| - 4 :: c.plugins[4 + i] == HtmlPage(EntryHtmlPlugins(c.entry)[i])
    ensures c.outputFilename == SelectMode(isProd).jsFilename && c.publicPath == ""
    ensures c.fontPublicPath == SelectMode(isProd).fontPublicPath && c.pugPretty == !isProd
  {
    var m := SelectMode(isProd);
    var entry := GetEntries(listing);
    Config(entry, m.jsFilename, m.publicPath, m.fontPublicPath, m.pugPretty, PluginList(m, EntryHtmlPlugins(entry)))
  }

  /** The `plugins` array: the four fixed plugins, then the pages in order. */
  function PluginList(m: ModeSettings, pages: seq<HtmlPageOptions>): (plugins: seq<Plugin>)
    ensures |plugins| == 4 + |pages|
    ensures plugins[..4] == [ProvideGlobals, Favicons, Clean(["dist"]), ExtractText(m.cssFilename, m.extractDisabled)]
    ensures forall i | 0 <= i < |pages| :: plugins[4 + i] == HtmlPage(pages[i])
  {
    var fixed := [ProvideGlobals, Favicons, Clean(PathsToClean), ExtractText(m.cssFilename, m.extractDisabled)];
    var plugins := fixed + Map(AsPlugin, pages);
    assert plugins[..4] == fixed;
    plugins
  }

  /** A page exists for `n` exactly when `n.js` is listed and `n` is neither the shared chunk nor
      `__proto__`. */
  lemma PagesForListing(listing: seq<string>)
    ensures forall n | n in PageNames(EntryHtmlPlugins(GetEntries(listing))) ::
              ScriptFile(n) in listing && n != "app" && n != "__proto__"
    ensures forall n | ScriptFile(n) in listing && n != "app" && n != "__proto__" ::
              n in PageNames(EntryHtmlPlugins(GetEntries(listing)))
  {
    var entry := GetEntries(listing);
    var names := PageNames(EntryHtmlPlugins(entry));
    forall n | n in names ensures ScriptFile(n) in listing && n != "app" && n != "__proto__" {
      assert n in Filter(NotShared, Keys(entry));
    }
  }

  /** When `app.js` is listed, every chunk a page asks for is an entry: its own and the shared
      one. */
  lemma PageChunksAreEntries(listing: seq<string>)
    requires ScriptFile(SharedChunk) in listing
    ensures var pages := EntryHtmlPlugins(GetEntries(listing));
            forall i, ch | 0 <= i < |pages| && ch in pages[i].chunks :: ch in GetEntries(listing).props
  {
  }

  /** With a listing without repeats, the plugin list holds the four fixed plugins and one page
      per kept script except `app.js` and `__proto__.js`. */
  lemma PluginCount(listing: seq<string>, isProd: bool)
    requires Distinct(listing)
    ensures |BuildConfig(listing, isProd).plugins| ==
            4 + |ScriptFiles(listing)|
            - (if ScriptFile(ProtoKey) in listing then 1 else 0)
            - (if ScriptFile(SharedChunk) in listing then 1 else 0)
  {
    GetEntriesCount(listing);
  }

  /** With a listing without repeats and without numeric script names, the pages come in
      listing order: `Object.keys` then only has creation order to follow. */
  lemma PagesInListingOrder(listing: seq<string>)
    requires Distinct(listing)
    requires forall k | ScriptFile(k) in listing :: !IsArrayIndex(k)
    ensures PageNames(EntryHtmlPlugins(GetEntries(listing))) ==
            Filter(NotShared, Filter(CreatesOwnKey, Names(EntryFiles(listing))))
  {
    GetEntriesOrder(listing);
    KeysInCreationOrder(GetEntries(listing));
  }
}
