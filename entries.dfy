/** `getEntries`: the dynamic entry points. A listing of `./src/js/` is filtered by the pattern
    `/.*\.js$/`, each kept name is paired with its logical name and its path, and the pairs are
    folded into a plain object from logical name to path. The listing is a parameter here; the
    directory read that produces it is outside the model. */
module Entries {
  import opened Seqs
  import opened JsObjects

  const ScriptDir: string := "./src/js/"
  const ScriptSuffix: string := ".js"

  /** The characters that `.` in a JavaScript regular expression without the `s` flag does not
      match: line feed, carriage return, line separator, paragraph separator. */
  predicate IsLineTerminator(c: char) {
    c == '\n' || c == '\r' || c == '\U{2028}' || c == '\U{2029}'
  }

  /** `file.match(/.*\.js$/)` succeeds: the search may start anywhere, `.*` takes a run of
      non-terminator characters, then `\.js` must be followed by the end of the input (`$`
      without the `m` flag). */
  ghost predicate MatchesScriptPattern(file: string) {
    exists i, j | 0 <= i <= j <= |file| :: MatchesAt(file, i, j)
  }

  /** `.*` takes `file[i..j]` and `\.js$` takes the rest. */
  ghost predicate MatchesAt(file: string, i: int, j: int)
    requires 0 <= i <= j <= |file|
  {
    (forall c | i <= c < j :: !IsLineTerminator(file[c])) && file[j..] == ScriptSuffix
  }

  /** The file name `<name>.js` of the script for the logical name `name`. */
  function ScriptFile(name: string): string {
    name + ScriptSuffix
  }

  /** The filter test: the name ends in `.js`, case-sensitively. */
  predicate IsScript(file: string) {
    |file| >= |ScriptSuffix| && file[|file| - |ScriptSuffix|..] == ScriptSuffix
  }

  /** The pattern accepts exactly the names that end in `.js`. */
  lemma PatternIsSuffixTest(file: string)
    ensures MatchesScriptPattern(file) <==> IsScript(file)
  {
    if IsScript(file) {
      assert MatchesAt(file, |file| - 3, |file| - 3);
    }
    if MatchesScriptPattern(file) {
      var i, j :| 0 <= i <= j <= |file| && MatchesAt(file, i, j);
      assert |file| - j == 3;
    }
  }

  /** Case and the exact suffix matter: `.JS` and `.jsx` are not scripts, and the bare name
      `.js` is one, with the empty logical name. */
  lemma SuffixExamples()
    ensures !IsScript("index.JS") && !IsScript("index.jsx") && !IsScript("js")
    ensures IsScript(".js") && ToEntryFile(".js").name == ""
    ensures IsScript("index.js") && ToEntryFile("index.js") == EntryFile("index", "./src/js/index.js")
  {
    var upper, longer, plain := "index.JS", "index.jsx", "index.js";
    assert upper[5..][1] == 'J';
    assert longer[6..][2] == 'x';
    assert plain[5..] == ScriptSuffix;
    assert plain[..5] == "index";
  }

  /** The step-1 filter: the listed names that match, in listing order. */
  function ScriptFiles(listing: seq<string>): (kept: seq<string>)
    ensures forall f | f in kept :: f in listing && IsScript(f)
    ensures forall f | f in listing && IsScript(f) :: f in kept
  {
    Filter(IsScript, listing)
  }

  /** `{ name, path }` as built by the `map` step. */
  datatype EntryFile = EntryFile(name: string, path: string)

  /** `s.substring(0, end)` for `end <= |s|`: a negative end counts as zero. */
  function SubstringTo(s: string, end: int): (r: string)
    requires end <= |s|
    ensures |r| == if end < 0 then 0 else end
    ensures r <= s
  {
    if end < 0 then "" else s[..end]
  }

  /** The `map` callback: the logical name is the file name without its last three characters,
      the path is the directory prefix followed by the file name. */
  function ToEntryFile(file: string): (e: EntryFile)
    ensures IsScript(file) ==> e.name + ScriptSuffix == file
    ensures e.path == ScriptDir + file
  {
    var name := SubstringTo(file, |file| - 3);
    assert IsScript(file) ==> file == name + file[|file| - 3..];
    EntryFile(name, ScriptDir + file)
  }

  function Names(files: seq<EntryFile>): (ns: seq<string>)
    ensures |ns| == |files|
    ensures forall i | 0 <= i < |files| :: ns[i] == files[i].name
  {
    seq(|files|, i requires 0 <= i < |files| => files[i].name)
  }

  /** The path of the last file in `files` named `k`, if any. */
  function LastWrite(files: seq<EntryFile>, k: string): Option<string> {
    if files == [] then None
    else
      var later := LastWrite(files[1..], k);
      if later.Some? then later
      else if files[0].name == k then Some(files[0].path)
      else None
  }

  /** The `reduce` step, from `memo` on: each file assigns its path to its name, so a name keeps
      the path of its last file; `__proto__` adds nothing. */
  function Reduce(files: seq<EntryFile>, memo: PlainObject): (r: PlainObject)
    requires memo.Valid()
    ensures r.Valid()
    ensures forall k | k in r.props :: k in memo.props || (k != ProtoKey && LastWrite(files, k).Some?)
    ensures forall k | k in memo.props || (k != ProtoKey && LastWrite(files, k).Some?) :: k in r.props
    ensures forall k | k in r.props ::
              r.props[k] == if LastWrite(files, k).Some? then LastWrite(files, k).value else memo.props[k]
    decreases |files|
  {
    if files == [] then memo
    else
      var next := Put(memo, files[0].name, files[0].path);
      var r := Reduce(files[1..], next);
      ReduceStepKeys(files, memo, next, r);
      ReduceStepValues(files, memo, next, r);
      r
  }

  /** The keys after a non-empty fold, from the keys after its recursive call. */
  lemma ReduceStepKeys(files: seq<EntryFile>, memo: PlainObject, next: PlainObject, r: PlainObject)
    requires files != [] && memo.Valid()
    requires next == Put(memo, files[0].name, files[0].path)
    requires forall k | k in r.props :: k in next.props || (k != ProtoKey && LastWrite(files[1..], k).Some?)
    requires forall k | k in next.props || (k != ProtoKey && LastWrite(files[1..], k).Some?) :: k in r.props
    ensures forall k | k in r.props :: k in memo.props || (k != ProtoKey && LastWrite(files, k).Some?)
    ensures forall k | k in memo.props || (k != ProtoKey && LastWrite(files, k).Some?) :: k in r.props
  {
    forall k | k in r.props ensures k in memo.props || (k != ProtoKey && LastWrite(files, k).Some?) {
      if k !in memo.props && LastWrite(files[1..], k).None? {
        assert k in next.props;
      }
    }
  }

  /** The values after a non-empty fold, from the values after its recursive call. */
  lemma ReduceStepValues(files: seq<EntryFile>, memo: PlainObject, next: PlainObject, r: PlainObject)
    requires files != [] && memo.Valid()
    requires next == Put(memo, files[0].name, files[0].path)
    requires forall k | k in r.props :: k in next.props || (k != ProtoKey && LastWrite(files[1..], k).Some?)
    requires forall k | k in r.props ::
               r.props[k] == if LastWrite(files[1..], k).Some? then LastWrite(files[1..], k).value else next.props[k]
    ensures forall k | k in r.props ::
              r.props[k] == if LastWrite(files, k).Some? then LastWrite(files, k).value else memo.props[k]
  {
    forall k | k in r.props
      ensures r.props[k] == if LastWrite(files, k).Some? then LastWrite(files, k).value else memo.props[k]
    {
      if LastWrite(files[1..], k).None? {
        assert k in next.props;
        if k == files[0].name {
          assert LastWrite(files, k) == Some(files[0].path);
        } else {
          assert LastWrite(files, k) == None;
        }
      }
    }
  }

  /** The `filter` and `map` steps: one `{ name, path }` per kept file, in listing order. */
  function EntryFiles(listing: seq<string>): (files: seq<EntryFile>)
    ensures |files| == |ScriptFiles(listing)|
    ensures forall i | 0 <= i < |files| ::
              files[i].name + ScriptSuffix == ScriptFiles(listing)[i] && files[i].path == ScriptDir + ScriptFiles(listing)[i]
  {
    Map(ToEntryFile, ScriptFiles(listing))
  }

  /** `getEntries()` applied to a listing of the scripts directory. */
  function GetEntries(listing: seq<string>): (entries: PlainObject)
    ensures entries.Valid()
    ensures forall k | k in entries.props :: k != ProtoKey && ScriptFile(k) in listing
    ensures forall k | k != ProtoKey && ScriptFile(k) in listing :: k in entries.props
    ensures forall k | k in entries.props :: entries.props[k] == ScriptDir + ScriptFile(k)
  {
    var files := EntryFiles(listing);
    LogicalNames(listing);
    forall k ensures LastWrite(files, k).Some? <==> k in Names(files) {
      LastWriteExists(files, k);
    }
    forall k | LastWrite(files, k).Some? ensures LastWrite(files, k).value == ScriptDir + ScriptFile(k) {
      LastWritePath(files, k);
    }
    Reduce(files, Empty())
  }

  /** Some file is named `k` exactly when there is a last one. */
  lemma {:induction false} LastWriteExists(files: seq<EntryFile>, k: string)
    ensures LastWrite(files, k).Some? <==> k in Names(files)
  {
    if files != [] {
      LastWriteExists(files[1..], k);
      assert Names(files) == [files[0].name] + Names(files[1..]);
    }
  }

  /** When each path is the scripts directory, the name and `.js`, so is the last write. */
  lemma {:induction false} LastWritePath(files: seq<EntryFile>, k: string)
    requires forall i | 0 <= i < |files| :: files[i].path == ScriptDir + ScriptFile(files[i].name)
    requires LastWrite(files, k).Some?
    ensures LastWrite(files, k).value == ScriptDir + ScriptFile(k)
  {
    if LastWrite(files[1..], k).Some? {
      LastWritePath(files[1..], k);
    }
  }

  /** The last write for `k` is the file named `k` at index `i` that no later file shares a
      name with. */
  lemma {:induction false} LastWriteIsLast(files: seq<EntryFile>, k: string, i: nat)
    requires i < |files| && files[i].name == k
    requires forall j | i < j < |files| :: files[j].name != k
    ensures LastWrite(files, k) == Some(files[i].path)
  {
    if i == 0 {
      LastWriteExists(files[1..], k);
    } else {
      LastWriteIsLast(files[1..], k, i - 1);
    }
  }

  /** The logical names reaching the fold are exactly the `k` with `k + ".js"` listed. */
  lemma LogicalNames(listing: seq<string>)
    ensures forall k | k in Names(EntryFiles(listing)) :: ScriptFile(k) in listing
    ensures forall k | ScriptFile(k) in listing :: k in Names(EntryFiles(listing))
  {
    var kept := ScriptFiles(listing);
    var names := Names(EntryFiles(listing));
    forall k | k in names ensures ScriptFile(k) in listing {
      var i :| 0 <= i < |names| && names[i] == k;
      assert kept[i] in kept;
    }
    forall k | ScriptFile(k) in listing ensures k in names {
      var f := ScriptFile(k);
      assert f[|f| - 3..] == ScriptSuffix;
      assert f in kept;
      var i :| 0 <= i < |kept| && kept[i] == f;
      assert f[..|f| - 3] == k;
      assert names[i] == k;
    }
  }

  /** Folding files with distinct new names appends those names, `__proto__` aside, in order. */
  lemma {:induction false} ReduceOrder(files: seq<EntryFile>, memo: PlainObject)
    requires memo.Valid()
    requires Distinct(Names(files))
    requires forall i | 0 <= i < |files| :: files[i].name !in memo.props
    ensures Reduce(files, memo).order == memo.order + Filter(CreatesOwnKey, Names(files))
    decreases |files|
  {
    if files == [] {
      assert Names(files) == [];
    } else {
      var n := files[0].name;
      var next := Put(memo, n, files[0].path);
      var rest := files[1..];
      var head := if CreatesOwnKey(n) then [n] else [];
      assert Names(files)[1..] == Names(rest);
      assert Filter(CreatesOwnKey, Names(files)) == head + Filter(CreatesOwnKey, Names(rest));
      assert next.order == memo.order + head;
      ReduceOrderStep(files, memo, next);
      ReduceOrder(rest, next);
      calc {
        Reduce(files, memo).order;
        Reduce(rest, next).order;
        next.order + Filter(CreatesOwnKey, Names(rest));
        (memo.order + head) + Filter(CreatesOwnKey, Names(rest));
        { ConcatAssoc(memo.order, head, Filter(CreatesOwnKey, Names(rest))); }
        memo.order + (head + Filter(CreatesOwnKey, Names(rest)));
        memo.order + Filter(CreatesOwnKey, Names(files));
      }
    }
  }

  /** The preconditions of `ReduceOrder` carry over to the recursive call. */
  lemma ReduceOrderStep(files: seq<EntryFile>, memo: PlainObject, next: PlainObject)
    requires files != [] && memo.Valid()
    requires next == Put(memo, files[0].name, files[0].path)
    requires Distinct(Names(files))
    requires forall i | 0 <= i < |files| :: files[i].name !in memo.props
    ensures next.Valid()
    ensures Distinct(Names(files[1..]))
    ensures forall i | 0 <= i < |files[1..]| :: files[1..][i].name !in next.props
  {
    var rest := files[1..];
    forall i | 0 <= i < |rest| ensures rest[i].name !in next.props {
      assert Names(files)[0] != Names(files)[i + 1];
    }
    forall i, j | 0 <= i < j < |rest| ensures Names(rest)[i] != Names(rest)[j] {
      assert Names(files)[i + 1] != Names(files)[j + 1];
    }
  }

  /** Distinct file names give distinct logical names. */
  lemma EntryNamesDistinct(listing: seq<string>)
    requires Distinct(listing)
    ensures Distinct(Names(EntryFiles(listing)))
  {
    FilterDistinct(IsScript, listing);
    var names := Names(EntryFiles(listing));
    forall i, j | 0 <= i < j < |names| ensures names[i] != names[j] {
      assert ScriptFiles(listing)[i] != ScriptFiles(listing)[j];
    }
  }

  /** For a listing without repeats, as a directory read gives, the entry keys are created in
      listing order: the logical names of the kept files, less `__proto__`. */
  lemma GetEntriesOrder(listing: seq<string>)
    requires Distinct(listing)
    ensures GetEntries(listing).order == Filter(CreatesOwnKey, Names(EntryFiles(listing)))
  {
    EntryNamesDistinct(listing);
    ReduceOrder(EntryFiles(listing), Empty());
  }

  /** For a listing without repeats there is one entry per kept file, except that the file
      `__proto__.js` gives none. */
  lemma GetEntriesCount(listing: seq<string>)
    requires Distinct(listing)
    ensures |GetEntries(listing).props| ==
            |ScriptFiles(listing)| - (if ScriptFile(ProtoKey) in listing then 1 else 0)
  {
    GetEntriesOrder(listing);
    EntryNamesDistinct(listing);
    LogicalNames(listing);
    FilterOutOne(CreatesOwnKey, ProtoKey, Names(EntryFiles(listing)));
  }

  /** A listing with no script in it gives the empty object. */
  lemma NoScriptsNoEntries(listing: seq<string>)
    requires forall i | 0 <= i < |listing| :: !IsScript(listing[i])
    ensures GetEntries(listing).props == map[] && GetEntries(listing).order == []
  {
    var entries := GetEntries(listing);
    forall k | k in entries.props ensures false {
    }
  }
}
