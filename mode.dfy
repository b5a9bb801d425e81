/** The settings that the build mode switches. The mode is a parameter `isProd` here; reading it
    from the `NODE_ENV` environment variable is outside the model. */
module Mode {

  const PublicPathDev: string := ""
  const PublicPathProd: string := ""
  const FontPathDev: string := "./fonts/"
  const FontPathProd: string := "../fonts/"
  const CssDev: string := CssDir + "[name].bundle.css"
  const CssProd: string := CssDir + "[name].[hash:8].bundle.css"
  const JsDev: string := "js/[name].bundle.js"
  const JsProd: string := "js/[name].[hash:8].bundle.js"

  /** The output directory of the extracted stylesheets. */
  const CssDir: string := "css/"

  /** Where the font rule's `file-loader` writes fonts, relative to the output directory. */
  const FontOutputPath: string := "fonts/"

  datatype ModeSettings = ModeSettings(
    publicPath: string,      // output.publicPath
    cssFilename: string,     // ExtractTextPlugin filename
    jsFilename: string,      // output.filename
    fontPublicPath: string,  // publicPath of the font rule
    extractDisabled: bool,   // ExtractTextPlugin disable
    pugPretty: bool,         // pug-loader pretty
    extractStyles: bool)     // the .scss rule goes through ExtractTextPlugin

  /** The constants picked by `isProd`. The two public paths are picked the other way round from
      their names, and both are empty. */
  function SelectMode(isProd: bool): (m: ModeSettings)
    ensures m.publicPath == ""
    ensures m.jsFilename == "js/[name]" + (if isProd then ".[hash:8]" else "") + ".bundle.js"
    ensures m.cssFilename == "css/[name]" + (if isProd then ".[hash:8]" else "") + ".bundle.css"
    ensures m.fontPublicPath == if isProd then "../fonts/" else "./fonts/"
    ensures m.extractStyles == isProd && m.extractDisabled == !isProd && m.pugPretty == !isProd
  {
    BundleNames();
    ModeSettings(
      publicPath := if isProd then PublicPathDev else PublicPathProd,
      cssFilename := if isProd then CssProd else CssDev,
      jsFilename := if isProd then JsProd else JsDev,
      fontPublicPath := if isProd then FontPathProd else FontPathDev,
      extractDisabled := !isProd,
      pugPretty := !isProd,
      extractStyles := isProd)
  }

  /** The production bundles carry an 8-character content hash that the development ones lack. */
  lemma BundleNames()
    ensures JsDev == "js/[name]" + ".bundle.js" && JsProd == "js/[name]" + ".[hash:8]" + ".bundle.js"
    ensures CssDev == "css/[name]" + ".bundle.css" && CssProd == "css/[name]" + ".[hash:8]" + ".bundle.css"
  {
  }

  /** The directory part of a path: everything up to and including its last `/`. */
  function DirOf(path: string): (dir: string)
    ensures dir <= path
    ensures dir == [] || dir[|dir| - 1] == '/'
    ensures '/' !in path[|dir|..]
    decreases |path|
  {
    if path == [] then []
    else if path[|path| - 1] == '/' then path
    else
      var dir := DirOf(path[..|path| - 1]);
      assert path[|dir|..] == path[..|path| - 1][|dir|..] + [path[|path| - 1]];
      dir
  }

  /** A directory followed by a name without `/` has that directory as its directory part. */
  lemma {:induction false} DirOfJoin(dir: string, name: string)
    requires dir == [] || dir[|dir| - 1] == '/'
    requires '/' !in name
    ensures DirOf(dir + name) == dir
    decreases |name|
  {
    if name == [] {
      assert dir + name == dir;
    } else {
      var last := |dir + name| - 1;
      assert (dir + name)[last] == name[|name| - 1];
      assert (dir + name)[..last] == dir + name[..|name| - 1];
      DirOfJoin(dir, name[..|name| - 1]);
    }
  }

  /** Resolves a relative reference against a directory, removing the leading `./` and `../`
      segments as in section 5.2.4 of RFC 3986; `../` at the top stays at the top. */
  function Resolve(dir: string, ref: string): string
    decreases |ref|
  {
    if |ref| >= 2 && ref[..2] == "./" then Resolve(dir, ref[2..])
    else if |ref| >= 3 && ref[..3] == "../" then
      Resolve(if dir == [] then [] else DirOf(dir[..|dir| - 1]), ref[3..])
    else dir + ref
  }

  /** The file the compiled styles of `page` live in: the extracted stylesheet in production,
      the page itself when the styles are injected into it. */
  function StylesheetPath(m: ModeSettings, page: string): string {
    if m.extractStyles then m.cssFilename else page
  }

  /** In either mode a font URL written into the styles of a page at the top of the output
      directory leads to where the fonts are written. */
  lemma FontUrlsReachFonts(isProd: bool, page: string)
    requires '/' !in page
    ensures Resolve(DirOf(StylesheetPath(SelectMode(isProd), page)), SelectMode(isProd).fontPublicPath)
            == FontOutputPath
  {
    if isProd {
      ProdFontUrl();
    } else {
      DevFontUrl(page);
    }
  }

  /** The production font path read from the extracted stylesheet in `css/`. */
  lemma ProdFontUrl()
    ensures Resolve(DirOf(CssProd), FontPathProd) == FontOutputPath
  {
    CssProdDir();
    ResolveUp(CssDir, FontPathProd, FontOutputPath);
    DirOfJoin([], "css");
    assert CssDir[..|CssDir| - 1] == [] + "css";
    ResolvePlain([], FontOutputPath);
  }

  /** The development font path read from a page at the top of the output directory. */
  lemma DevFontUrl(page: string)
    requires '/' !in page
    ensures Resolve(DirOf(page), FontPathDev) == FontOutputPath
  {
    DirOfJoin([], page);
    assert [] + page == page;
    ResolveHere([], FontPathDev, FontOutputPath);
    ResolvePlain([], FontOutputPath);
  }

  /** The production stylesheet is written into `css/`. */
  lemma CssProdDir()
    ensures DirOf(CssProd) == "css/"
  {
    DirOfJoin(CssDir, "[name].[hash:8].bundle.css");
  }

  lemma ResolvePlain(dir: string, ref: string)
    requires ref == FontOutputPath
    ensures Resolve(dir, ref) == dir + ref
  {
    assert ref[..2] == "fo" && ref[..3] == "fon";
  }

  lemma ResolveHere(dir: string, ref: string, rest: string)
    requires ref == "./" + rest
    ensures Resolve(dir, ref) == Resolve(dir, rest)
  {
    assert ref[..2] == "./" && ref[2..] == rest;
  }

  lemma ResolveUp(dir: string, ref: string, rest: string)
    requires ref == "../" + rest && dir != []
    ensures Resolve(dir, ref) == Resolve(DirOf(dir[..|dir| - 1]), rest)
  {
    assert ref[..2] == ".." && ref[..3] == "../" && ref[3..] == rest;
  }

  /** The font path has to follow the mode: the development path read from the production
      stylesheet points into `css/`. */
  lemma FontPathFollowsMode()
    ensures Resolve(DirOf(CssProd), FontPathDev) == "css/fonts/"
  {
    CssProdDir();
    ResolveHere("css/", FontPathDev, FontOutputPath);
    ResolvePlain("css/", FontOutputPath);
  }
}
