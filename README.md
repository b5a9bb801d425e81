# webpack-pug-zigang: the dynamic entries and pages of `webpack.config.js`

The build configuration of this webpack + Pug starter finds its entry points by itself. It
lists `./src/js/`, keeps every file whose name matches `/.*\.js$/`, and maps each kept file to a
logical name (the file name without its last three characters) and a path (`./src/js/` followed
by the file name). It then folds these pairs into a plain object from name to path. Every key of
that object except the shared chunk `app` then gets an `HtmlWebpackPlugin` page with these
options:

- `<name>.html` as the output file;
- `src/pug/<name>.pug` as the template;
- the chunks `[<name>, 'app']`.

The build mode (`NODE_ENV === 'production'`) selects:

- hashed or unhashed bundle names;
- whether styles are extracted to a stylesheet or injected into the page;
- pretty Pug output;
- the public path used in font URLs.

The model is pure Dafny: datatypes, functions and lemmas, in six modules:

- `Seqs`: `Array.prototype.filter` and `map` on sequences, with lemmas about filtering.
- `JsObjects`: a plain object made with `{}`. It models what `obj[k] = v` does, including the
  inherited `__proto__` accessor. It also models the order in which `Object.keys` lists the keys:
  array indices in ascending numeric order first, then the other keys in creation order, as in
  section 10.1.11.1 (OrdinaryOwnPropertyKeys) of the ECMAScript specification.
- `Entries`: `getEntries`. The regular expression is a match predicate that is proved equal to a
  suffix test; then come the `map` callback and the `reduce` fold.
- `Pages`: the `entryHtmlPlugins` array.
- `Mode`: the mode-dependent constants. A relative-reference resolver in the style of
  section 5.2.4 of RFC 3986 shows that both font paths lead to the font output directory.
- `WebpackConfig`: the exported configuration, reduced to its computed parts.

The directory listing and the mode are parameters of the model.

Notes on the behaviour the model exposes:

- The public path is chosen with the two constants swapped (`isProd ? publicPathDev :
  publicPathProd`). Both constants are `''`, so the result is `''` in both modes, and
  `Mode.SelectMode` states exactly that.
- A script called `__proto__.js` gives no entry. The assignment `memo['__proto__'] = path` on
  `{}` calls the setter inherited from `Object.prototype`, and that setter ignores a string value.
  This is ordinary JavaScript semantics, so it is modelled, not reported.
- A script called `.js` gives the entry `''`. A numeric script name such as `2.js` is listed by
  `Object.keys` before all other names, so its page comes first whatever the listing order.

## Model

| member | source | states |
|---|---|---|
| Entries.PatternIsSuffixTest | webpack.config.js:46-48 | `/.*\.js$/` matches a file name exactly when the name ends in `.js` (both directions) |
| Entries.SuffixExamples | webpack.config.js:46-53 | `index.JS`, `index.jsx` and `js` are rejected; `.js` is kept with logical name `""`; `index.js` gives `{ name: 'index', path: './src/js/index.js' }` |
| Entries.ScriptFiles | webpack.config.js:46-48 | the kept names are exactly the listed names that end in `.js` |
| Entries.SubstringTo | webpack.config.js:51 | `substring(0, end)` is a prefix of length `end`, or empty when `end` is negative |
| Entries.ToEntryFile | webpack.config.js:49-53 | for a kept file, the logical name followed by `.js` gives back the file name, and the path is `./src/js/` followed by the file name |
| Entries.EntryFiles | webpack.config.js:45-53 | one `{ name, path }` per kept file, in listing order, each name/path tied to its file |
| Entries.Reduce | webpack.config.js:54-61 | the fold keeps the object well formed; a key is present iff it was in `memo` or some file has that name (`__proto__` excepted); its value is the path of the last file with that name |
| Entries.LastWriteIsLast | webpack.config.js:55 | the value a name ends up with is the path of the last file carrying it |
| Entries.GetEntries | webpack.config.js:44-62 | `k` is a key iff `k + '.js'` is listed and `k` is not `__proto__`; its value is `'./src/js/' + k + '.js'` |
| Entries.GetEntriesOrder | webpack.config.js:54-61 | for a listing without repeats, keys are created in listing order (the logical names of the kept files, `__proto__` dropped) |
| Entries.GetEntriesCount | webpack.config.js:54-61 | for a listing without repeats, the number of keys is the number of kept files, minus one if `__proto__.js` is listed |
| Entries.NoScriptsNoEntries | webpack.config.js:44-62 | a listing without any `.js` name gives the empty object `{}` |
| JsObjects.Empty | webpack.config.js:61 | the initial `{}` is well formed and has no properties |
| JsObjects.Put | webpack.config.js:55 | `memo[k] = v` sets `k` to `v`, appends a new key to the creation order, keeps an existing key's place, changes no other key, and leaves the object unchanged for `__proto__` |
| JsObjects.PutOverwrites | webpack.config.js:55 | assigning the same key twice equals assigning only the second value (last write wins) |
| JsObjects.SortIndices | webpack.config.js:67 | the array-index keys rearranged (same multiset) into ascending numeric order |
| JsObjects.Keys | webpack.config.js:67 | `Object.keys` lists every own key exactly once; array indices come first in strictly ascending numeric order; the other keys keep their creation order |
| JsObjects.KeysInCreationOrder | webpack.config.js:67 | with no array-index key, `Object.keys` is exactly the creation order |
| JsObjects.ArrayIndexInjective | webpack.config.js:67 | distinct array-index keys have distinct numeric values, so their order is strict |
| Pages.PageFor | webpack.config.js:67-73 | the page built for an entry name is named after that entry |
| Pages.EntryHtmlPlugins | webpack.config.js:66-73 | one page per key other than `app`, in `Object.keys` order, so the count is the key count minus one when `app` is a key; each page has filename `n + '.html'`, template `'src/pug/' + n + '.pug'`, chunks `[n, 'app']` |
| Pages.PageFilesDistinct | webpack.config.js:67-73 | no two pages share an output file or a template |
| Pages.SharedOnlyNoPages | webpack.config.js:67 | an entry object holding only `app` gives no page |
| Mode.SelectMode | webpack.config.js:10-41 | in production the bundle names carry `.[hash:8]` and the font path is `../fonts/`; in development they do not and it is `./fonts/`; the public path is `''` in both; extraction is on only in production (`disable: !isProd`) and Pug is pretty only in development |
| Mode.FontUrlsReachFonts | webpack.config.js:17-18 | in both modes, the font path read from the file holding the styles (`css/...` in production, the page in development) resolves to `fonts/`, the font rule's output path |
| Mode.FontPathFollowsMode | webpack.config.js:17-18 | read from the production stylesheet, the development font path would point into `css/fonts/`, so the path has to follow the mode |
| WebpackConfig.PluginList | webpack.config.js:192-245 | the plugins are ProvidePlugin, Favicons, Clean(`['dist']`) and the ExtractText plugin, followed by the pages in order |
| WebpackConfig.BuildConfig | webpack.config.js:75-81 | `entry` is `getEntries()`; output filename and public path follow the mode; the plugin list is the four fixed plugins and then one per page, and the ExtractText options follow the mode |
| WebpackConfig.PagesForListing | webpack.config.js:64-73 | a page exists for `n` iff `n + '.js'` is listed and `n` is neither `app` nor `__proto__` |
| WebpackConfig.PageChunksAreEntries | webpack.config.js:67-73 | when `app.js` is listed, every chunk a page asks for is an entry |
| WebpackConfig.PluginCount | webpack.config.js:192-245 | for a listing without repeats: 4 plugins plus one per kept script, minus `app.js` and `__proto__.js` when listed |
| WebpackConfig.PagesInListingOrder | webpack.config.js:64-73 | for a listing without repeats and without numeric names, the pages follow listing order |

## Left out

- Reading `./src/js/` with `fs.readdirSync` (line 45) is left out. The listing is a parameter, and
  a listing without repeats stands for what a directory read returns.
- Reading `process.env.NODE_ENV` (line 10) is left out. The mode is the parameter `isProd`.
- Plugins are reduced to the options the configuration computes. `ProvidePlugin` and
  `FaviconsWebpackPlugin` carry no options in the model; their constant option objects
  (lines 193-242) and the behaviour of webpack and its plugins are outside it.
- Of the loader rules (lines 82-173), the model has only the mode-dependent choices:
  - Pug `pretty`;
  - extract versus inject for `.scss`;
  - the font `publicPath`, together with the font `outputPath`.

  The JavaScript, image and font test patterns and the other loader options are constants,
  and they are not modelled.
- `devServer` (lines 175-191) and `output.path` through `path.join` (line 78) are left out: they
  depend on the file system and on the server, not on the listing or the mode.
- JsObjects.Put: only string values and a plain `{}` receiver are modelled. Other inherited setters
  do not exist on `Object.prototype`, so `__proto__` is the only special key.
- Mode.FontUrlsReachFonts: the resolver handles only the leading `./` and `../` segments the two
  font paths use, not the full remove-dot-segments algorithm. The page is taken to sit at the
  top of the output directory, which holds for the `<name>.html` filenames.
