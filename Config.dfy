/**
 * The daemon configuration (src/up-config.c): the main UPower.conf key file,
 * overlaid by the drop-in files of UPower.conf.d in strcmp order, and the
 * typed readers of its [UPower] group.
 *
 * A key file is a map from group names to groups, a group a map from keys to
 * their raw value text. Loading files and reading directories are not
 * modelled: the directory arrives as the sequence of its entries and each
 * drop-in file as the key file it parses to (or as unloadable).
 */
module Config {
  import opened Wrappers
  import opened Strings
  import opened Numbers

  /** A key-file group: key -> raw value text. */
  type Group = map<string, string>

  /** A parsed key file: group name -> group. */
  type KeyFile = map<string, Group>

  /** The only group the daemon reads, and the only one a drop-in may override. */
  const UPOWER: string := "UPower"

  // ---------------------------------------------------------------------
  // Which drop-in files are considered

  /** The characters of [a-zA-Z0-9-_]. */
  predicate IsNameChar(c: char) {
    'a' <= c <= 'z' || 'A' <= c <= 'Z' || IsDigit(c) || c == '-' || c == '_'
  }

  /** The whole name is two digits, a dash, name characters, and ".conf". */
  predicate MatchesWhole(s: string) {
    |s| >= 8 && IsDigit(s[0]) && IsDigit(s[1]) && s[2] == '-'
    && (forall k :: 3 <= k < |s| - 5 ==> IsNameChar(s[k]))
    && s[|s| - 5..] == ".conf"
  }

  /**
   * A one-character newline under GRegex's default newline convention, which
   * recognises any Unicode newline: LF, CR, VT, FF, NEL, LS and PS (and the
   * two-character CR LF, handled by IsConfdName).
   */
  predicate IsNewlineChar(c: char) {
    c == '\n' || c == '\r' || c == '\U{000B}' || c == '\U{000C}'
    || c == '\U{0085}' || c == '\U{2028}' || c == '\U{2029}'
  }

  /**
   * The name matches ^([0-9][0-9])-([a-zA-Z0-9-_])*\.conf$ under the default
   * regex flags, where `$` also matches just before one final newline
   * sequence: a newline character or CR LF.
   */
  predicate IsConfdName(name: string) {
    MatchesWhole(name)
    || (|name| >= 1 && IsNewlineChar(name[|name| - 1]) && MatchesWhole(name[..|name| - 1]))
    || (|name| >= 2 && name[|name| - 2..] == "\r\n" && MatchesWhole(name[..|name| - 2]))
  }

  /** The filter characterised: a name built as the pattern spells it is accepted exactly when its parts are of the right classes. */
  lemma ConfdNameShape(d1: char, d2: char, body: string)
    ensures IsConfdName([d1, d2, '-'] + body + ".conf")
            <==> IsDigit(d1) && IsDigit(d2) && forall k :: 0 <= k < |body| ==> IsNameChar(body[k])
  {
    var s := [d1, d2, '-'] + body + ".conf";
    assert s[|s| - 5..] == ".conf";
    assert forall k :: 3 <= k < |s| - 5 ==> s[k] == body[k - 3];
    if forall k :: 3 <= k < |s| - 5 ==> IsNameChar(s[k]) {
      forall k | 0 <= k < |body| ensures IsNameChar(body[k]) {
        assert s[k + 3] == body[k];
      }
    }
  }

  /** The example name from the documentation of up_config_list_confd_files is accepted. */
  lemma DocumentedNameAccepted()
    ensures IsConfdName("01-upower-override.conf")
  {
    var body := "upower-override";
    assert forall k :: 0 <= k < |body| ==> IsNameChar(body[k]);
    ConfdNameShape('0', '1', body);
    assert "01-upower-override.conf" == ['0', '1', '-'] + body + ".conf";
  }

  /** An empty middle part, and a final newline sequence that `$` lets through, are accepted. */
  lemma ConfdNamesAccepted()
    ensures IsConfdName("10-.conf")
    ensures IsConfdName("42-a_b.conf\n")
    ensures IsConfdName("10-a.conf\r")
    ensures IsConfdName("10-a.conf\r\n")
    ensures IsConfdName("10-a.conf\U{2028}")
  {
    assert "42-a_b.conf\n"[..11] == "42-a_b.conf";
    assert "10-a.conf\r"[..9] == "10-a.conf";
    assert "10-a.conf\r\n"[9..] == "\r\n";
    assert "10-a.conf\r\n"[..9] == "10-a.conf";
    assert "10-a.conf\U{2028}"[..9] == "10-a.conf";
  }

  /** Only one final newline sequence is let through: two newlines, or a newline before ".conf", are not. */
  lemma ConfdNewlinesRejected()
    ensures !IsConfdName("10-a.conf\n\n")
    ensures !IsConfdName("10-a.conf\n\r")
    ensures !IsConfdName("10-a\n.conf")
  {
    assert "10-a.conf\n\n"[..10][5..] == "conf\n";
    assert "10-a.conf\n\r"[..10][5..] == "conf\n";
    assert "10-a.conf\n\r"[9..] == "\n\r";
    assert "10-a\n.conf"[4] == '\n';
  }

  /** The main file, a one-digit prefix, a space, and a trailing suffix are turned away. */
  lemma ConfdNamesRejected()
    ensures !IsConfdName("UPower.conf")
    ensures !IsConfdName("1-x.conf")
    ensures !IsConfdName("10-a b.conf")
    ensures !IsConfdName("10-a.conf.bak")
  {
    assert "10-a b.conf"[4] == ' ';
    assert "10-a.conf.bak"[8..] == "f.bak";
  }

  /** One directory entry, and whether querying its file type succeeded. */
  datatype DirEntry = DirEntry(name: string, queryOk: bool)

  /** g_build_filename of the drop-in directory and an entry name. */
  function BuildPath(dir: string, name: string): string {
    dir + "/" + name
  }

  /** The paths of the entries that pass the name filter and the file query, in directory order. */
  function Candidates(dir: string, entries: seq<DirEntry>): (paths: seq<string>)
    ensures |paths| <= |entries|
    ensures forall p :: p in paths <==>
              exists e :: e in entries && IsConfdName(e.name) && e.queryOk && p == BuildPath(dir, e.name)
  {
    if entries == [] then []
    else
      var e := entries[|entries| - 1];
      var before := Candidates(dir, entries[..|entries| - 1]);
      assert entries == entries[..|entries| - 1] + [e];
      if IsConfdName(e.name) && e.queryOk then before + [BuildPath(dir, e.name)] else before
  }

  // ---------------------------------------------------------------------
  // strcmp order

  predicate SortedByStrcmp(s: seq<string>) {
    forall i, j :: 0 <= i < j < |s| ==> StrLe(s[i], s[j])
  }

  /** x placed before the first element it does not follow. */
  function Insert(x: string, s: seq<string>): (r: seq<string>)
    requires SortedByStrcmp(s)
    ensures SortedByStrcmp(r)
    ensures multiset(r) == multiset(s) + multiset{x}
  {
    if s == [] then [x]
    else if StrLe(x, s[0]) then
      InsertedFirst(x, s);
      [x] + s
    else
      var rest := Insert(x, s[1..]);
      StrLeTotal(x, s[0]);
      assert s == [s[0]] + s[1..];
      InsertedLater(s[0], x, s[1..], rest);
      [s[0]] + rest
  }

  lemma InsertedFirst(x: string, s: seq<string>)
    requires SortedByStrcmp(s) && s != [] && StrLe(x, s[0])
    ensures SortedByStrcmp([x] + s)
  {
    forall j | 0 < j < |s| ensures StrLe(x, s[j]) {
      StrLeTransitive(x, s[0], s[j]);
    }
  }

  lemma InsertedLater(h: string, x: string, tail: seq<string>, rest: seq<string>)
    requires SortedByStrcmp([h] + tail) && StrLe(h, x)
    requires SortedByStrcmp(rest) && multiset(rest) == multiset(tail) + multiset{x}
    ensures SortedByStrcmp([h] + rest)
  {
    forall j | 0 <= j < |rest| ensures StrLe(h, rest[j]) {
      assert rest[j] in multiset(rest);
      if rest[j] != x {
        assert rest[j] in multiset(tail);
        var k :| 0 <= k < |tail| && tail[k] == rest[j];
        assert ([h] + tail)[0] == h && ([h] + tail)[k + 1] == tail[k];
      }
    }
  }

  /**
   * The drop-in paths in strcmp order. g_ptr_array_sort_values is modelled
   * by insertion sort; any sort gives the same sequence (SortIsDetermined).
   */
  function SortStrcmp(s: seq<string>): (r: seq<string>)
    ensures SortedByStrcmp(r)
    ensures multiset(r) == multiset(s)
  {
    if s == [] then []
    else
      assert s == [s[0]] + s[1..];
      Insert(s[0], SortStrcmp(s[1..]))
  }

  /** Two strcmp-sorted orderings of the same paths are the same sequence. */
  lemma {:induction false} SortIsDetermined(a: seq<string>, b: seq<string>)
    requires SortedByStrcmp(a) && SortedByStrcmp(b) && multiset(a) == multiset(b)
    ensures a == b
    decreases |a|
  {
    if a != [] {
      SameHead(a, b);
      SortedTail(a);
      SortedTail(b);
      SortIsDetermined(a[1..], b[1..]);
      assert a == [a[0]] + a[1..] && b == [b[0]] + b[1..];
    }
  }

  lemma SameHead(a: seq<string>, b: seq<string>)
    requires SortedByStrcmp(a) && SortedByStrcmp(b) && multiset(a) == multiset(b) && a != []
    ensures b != [] && a[0] == b[0]
    ensures multiset(a[1..]) == multiset(b[1..])
  {
    assert a == [a[0]] + a[1..];
    assert a[0] in multiset(b);
    assert b == [b[0]] + b[1..];
    assert multiset(a) == multiset{a[0]} + multiset(a[1..]);
    assert multiset(b) == multiset{b[0]} + multiset(b[1..]);
    LeastFirst(a, b[0]);
    LeastFirst(b, a[0]);
    StrLeAntisymmetric(a[0], b[0]);
    assert multiset(a[1..]) == multiset(a) - multiset{a[0]};
    assert multiset(b[1..]) == multiset(b) - multiset{b[0]};
  }

  lemma SortedTail(s: seq<string>)
    requires SortedByStrcmp(s) && s != []
    ensures SortedByStrcmp(s[1..])
  {
    forall i, j | 0 <= i < j < |s| - 1 ensures StrLe(s[1..][i], s[1..][j]) {
      assert s[1..][i] == s[i + 1] && s[1..][j] == s[j + 1];
    }
  }

  /** The first element of a sorted sequence precedes every element. */
  lemma LeastFirst(s: seq<string>, x: string)
    requires SortedByStrcmp(s) && x in multiset(s)
    ensures s != [] && StrLe(s[0], x)
  {
    var i :| 0 <= i < |s| && s[i] == x;
    if i == 0 {
      StrLeReflexive(x);
    }
  }

  /** The drop-in files of a readable directory, in the order they are applied. */
  function ConfdFiles(dir: string, entries: seq<DirEntry>): seq<string> {
    SortStrcmp(Candidates(dir, entries))
  }

  /**
   * up_config_list_confd_files: None when the directory cannot be opened;
   * otherwise the accepted paths, collected in directory order, then sorted.
   */
  method ListConfdFiles(confDPath: string, dir: Option<seq<DirEntry>>) returns (files: Option<seq<string>>)
    ensures files.None? <==> dir.None?
    ensures dir.Some? ==> files == Some(ConfdFiles(confDPath, dir.value))
  {
    if dir.None? {
      return None;
    }
    var entries := dir.value;
    var found: seq<string> := [];
    for i := 0 to |entries|
      invariant found == Candidates(confDPath, entries[..i])
    {
      assert entries[..i + 1][..i] == entries[..i];
      var entry := entries[i];
      if !IsConfdName(entry.name) {
        continue;
      }
      if entry.queryOk {
        found := found + [BuildPath(confDPath, entry.name)];
      }
    }
    assert entries[..|entries|] == entries;
    files := Some(SortStrcmp(found));
  }

  /** Every accepted entry is applied exactly once, in strcmp order of the file names. */
  lemma ConfdFilesOrder(dir: string, entries: seq<DirEntry>, x: string, y: string)
    requires BuildPath(dir, x) in ConfdFiles(dir, entries) && BuildPath(dir, y) in ConfdFiles(dir, entries)
    ensures forall i, j :: 0 <= i < j < |ConfdFiles(dir, entries)|
              && ConfdFiles(dir, entries)[i] == BuildPath(dir, x) && ConfdFiles(dir, entries)[j] == BuildPath(dir, y)
              ==> StrLe(x, y)
  {
    assert BuildPath(dir, x) == (dir + "/") + x && BuildPath(dir, y) == (dir + "/") + y;
    StrLeCommonPrefix(dir + "/", x, y);
  }

  // ---------------------------------------------------------------------
  // Overriding the main file

  /** A drop-in file: unloadable, or the key file it parses to. */
  datatype Confd = Unloadable | Loaded(file: KeyFile)

  /**
   * The base group after a drop-in group: a key the base already has takes
   * the drop-in's value when the drop-in sets it; no key is added.
   */
  function Merge(base: Group, overrides: Group): (r: Group)
    ensures r.Keys == base.Keys
    ensures forall k :: k in r ==> r[k] == (if k in overrides then overrides[k] else base[k])
  {
    map k | k in base :: if k in overrides then overrides[k] else base[k]
  }

  /**
   * The key file after up_config_override_from_confd: unchanged when the
   * drop-in is unloadable or has no [UPower] group, or when the base has none
   * (no key of it then exists); otherwise its [UPower] group merged.
   */
  function Overridden(kf: KeyFile, c: Confd): KeyFile {
    if c.Unloadable? || UPOWER !in c.file || UPOWER !in kf then kf
    else kf[UPOWER := Merge(kf[UPOWER], c.file[UPOWER])]
  }

  /** Only the [UPower] group changes, and it keeps exactly its keys. */
  lemma OverriddenKeepsShape(kf: KeyFile, c: Confd)
    ensures Overridden(kf, c).Keys == kf.Keys
    ensures forall g :: g in kf && g != UPOWER ==> Overridden(kf, c)[g] == kf[g]
    ensures UPOWER in kf ==> Overridden(kf, c)[UPOWER].Keys == kf[UPOWER].Keys
  {
  }

  /** Merging two drop-ins in turn is merging once with the later one's values taking precedence. */
  lemma MergeTwice(base: Group, first: Group, second: Group)
    ensures Merge(Merge(base, first), second) == Merge(base, first + second)
  {
  }

  /** The drop-in part of a group whose keys are in `done`. */
  function Restrict(g: Group, done: set<string>): (r: Group)
    ensures r.Keys == g.Keys * done
  {
    map k | k in g && k in done :: g[k]
  }

  lemma MergeNone(kf: KeyFile, overrides: Group)
    ensures UPOWER in kf ==> kf == kf[UPOWER := Merge(kf[UPOWER], Restrict(overrides, {}))]
  {
    if UPOWER in kf {
      assert Merge(kf[UPOWER], Restrict(overrides, {})) == kf[UPOWER];
    }
  }

  /** Taking one more drop-in key sets that key when the base has it, and changes nothing otherwise. */
  lemma MergeOneMore(kf: KeyFile, overrides: Group, done: set<string>, key: string)
    requires key in overrides && key !in done
    ensures UPOWER in kf ==>
              var before := Merge(kf[UPOWER], Restrict(overrides, done));
              Merge(kf[UPOWER], Restrict(overrides, done + {key}))
                == if key in before then before[key := overrides[key]] else before
  {
  }

  /** The drop-ins applied one after another, in the given order. */
  function ApplyFiles(kf: KeyFile, paths: seq<string>, load: string -> Confd): KeyFile {
    if paths == [] then kf
    else Overridden(ApplyFiles(kf, paths[..|paths| - 1], load), load(paths[|paths| - 1]))
  }

  /** The value the last drop-in that sets `key` in its [UPower] group gives it. */
  function LastOverride(paths: seq<string>, load: string -> Confd, key: string): Option<string> {
    if paths == [] then None
    else
      var c := load(paths[|paths| - 1]);
      if c.Loaded? && UPOWER in c.file && key in c.file[UPOWER] then Some(c.file[UPOWER][key])
      else LastOverride(paths[..|paths| - 1], load, key)
  }

  /**
   * Later drop-ins win: after all drop-ins, a key of the main [UPower] group
   * holds the value of the last drop-in that sets it, else its own; the
   * groups and the group's keys are those of the main file.
   */
  lemma {:induction false} LastWriterWins(kf: KeyFile, paths: seq<string>, load: string -> Confd, key: string)
    requires UPOWER in kf && key in kf[UPOWER]
    ensures ApplyFiles(kf, paths, load).Keys == kf.Keys
    ensures ApplyFiles(kf, paths, load)[UPOWER].Keys == kf[UPOWER].Keys
    ensures ApplyFiles(kf, paths, load)[UPOWER][key] == LastOverride(paths, load, key).GetOr(kf[UPOWER][key])
  {
    if paths != [] {
      LastWriterWins(kf, paths[..|paths| - 1], load, key);
    }
  }

  /** Groups other than [UPower] are never touched by the drop-ins. */
  lemma {:induction false} OtherGroupsUntouched(kf: KeyFile, paths: seq<string>, load: string -> Confd, g: string)
    requires g in kf && g != UPOWER
    ensures g in ApplyFiles(kf, paths, load) && ApplyFiles(kf, paths, load)[g] == kf[g]
  {
    if paths != [] {
      OtherGroupsUntouched(kf, paths[..|paths| - 1], load, g);
    }
  }

  /** The key file up_config_init ends with: the main file (empty when it fails to load), then every listed drop-in. */
  function Initial(base: Option<KeyFile>, confDPath: string, dir: Option<seq<DirEntry>>, load: string -> Confd): KeyFile {
    var kf := base.GetOr(map[]);
    if dir.None? then kf else ApplyFiles(kf, ConfdFiles(confDPath, dir.value), load)
  }

  /** The configuration object, holding the key file the getters read. */
  class UpConfig {
    var keyfile: KeyFile

    /**
     * up_config_init: load the main file, then apply each listed drop-in in
     * turn. The main file's location (UPOWER_CONF_FILE_NAME or the default)
     * and the loaders are parameters.
     */
    constructor (base: Option<KeyFile>, confDPath: string, dir: Option<seq<DirEntry>>, load: string -> Confd)
      ensures keyfile == Initial(base, confDPath, dir, load)
    {
      keyfile := base.GetOr(map[]);
      new;
      var files := ListConfdFiles(confDPath, dir);
      if files.Some? {
        var paths := files.value;
        for i := 0 to |paths|
          invariant keyfile == ApplyFiles(base.GetOr(map[]), paths[..i], load)
        {
          assert paths[..i + 1][..i] == paths[..i];
          OverrideFromConfd(load(paths[i]));
        }
        assert paths[..|paths|] == paths;
      }
    }

    /**
     * up_config_override_from_confd: for each key of the drop-in's [UPower]
     * group, replace the value of that key in the held key file if it has it.
     */
    method OverrideFromConfd(c: Confd)
      modifies this
      ensures keyfile == Overridden(old(keyfile), c)
    {
      if c.Unloadable? || UPOWER !in c.file {
        return;
      }
      var overrides := c.file[UPOWER];
      var keys := overrides.Keys;
      ghost var done: set<string> := {};
      MergeNone(keyfile, overrides);
      while keys != {}
        invariant keys + done == overrides.Keys && keys !! done
        invariant UPOWER !in old(keyfile) ==> keyfile == old(keyfile)
        invariant UPOWER in old(keyfile) ==>
                    keyfile == old(keyfile)[UPOWER := Merge(old(keyfile)[UPOWER], Restrict(overrides, done))]
        decreases keys
      {
        var key :| key in keys;
        MergeOneMore(old(keyfile), overrides, done, key);
        if UPOWER in keyfile && key in keyfile[UPOWER] {
          keyfile := keyfile[UPOWER := keyfile[UPOWER][key := overrides[key]]];
        }
        keys := keys - {key};
        done := done + {key};
      }
      assert Restrict(overrides, done) == overrides;
    }
  }

  // ---------------------------------------------------------------------
  // The layering example from the documentation of up_config_list_confd_files

  const EXAMPLE_DIR: string := "/etc/UPower/UPower.conf.d"
  const EXAMPLE_70: string := "70-" + "change-percentages" + ".conf"
  const EXAMPLE_99: string := "99-" + "change-percentages-local" + ".conf"

  /** UPower.conf with the three percentage defaults. */
  const EXAMPLE_BASE: KeyFile :=
    map[UPOWER := map["PercentageLow" := "20.0", "PercentageCritical" := "5.0", "PercentageAction" := "2.0"]]

  const EXAMPLE_GROUP_70: Group := map["PercentageLow" := "15.0", "PercentageCritical" := "10.0", "PercentageAction" := "5.0"]
  const EXAMPLE_GROUP_99: Group := map["PercentageAction" := "7.5"]

  /** The effective values the documentation states. */
  const EXAMPLE_RESULT: Group := map["PercentageLow" := "15.0", "PercentageCritical" := "10.0", "PercentageAction" := "7.5"]

  /** The two drop-ins; the directory lists the later one first. */
  const EXAMPLE_ENTRIES: seq<DirEntry> := [DirEntry(EXAMPLE_99, true), DirEntry(EXAMPLE_70, true)]

  /** What each drop-in path parses to. */
  function ExampleLoad(path: string): Confd {
    if path == BuildPath(EXAMPLE_DIR, EXAMPLE_70) then Loaded(map[UPOWER := EXAMPLE_GROUP_70])
    else if path == BuildPath(EXAMPLE_DIR, EXAMPLE_99) then Loaded(map[UPOWER := EXAMPLE_GROUP_99])
    else Unloadable
  }

  predicate AllNameChars(s: string) {
    forall k :: 0 <= k < |s| ==> IsNameChar(s[k])
  }

  lemma NameCharsJoin(a: string, b: string)
    requires AllNameChars(a) && AllNameChars(b)
    ensures AllNameChars(a + b)
  {
    forall k | 0 <= k < |a + b| ensures IsNameChar((a + b)[k]) {
      if k >= |a| {
        assert (a + b)[k] == b[k - |a|];
      }
    }
  }

  lemma ExampleBodiesAreNameChars()
    ensures AllNameChars("change-percentages")
    ensures AllNameChars("change-percentages-local")
  {
    var change := "change-percentages";
    assert AllNameChars(change);
    assert AllNameChars("-local");
    NameCharsJoin(change, "-local");
    assert change + "-local" == "change-percentages-local";
  }

  /** The 70- drop-in's name passes the filter. */
  lemma Example70Accepted()
    ensures IsConfdName(EXAMPLE_70)
  {
    ExampleBodiesAreNameChars();
    ConfdNameShape('7', '0', "change-percentages");
    assert EXAMPLE_70 == ['7', '0', '-'] + "change-percentages" + ".conf";
  }

  /** The 99- drop-in's name passes the filter. */
  lemma Example99Accepted()
    ensures IsConfdName(EXAMPLE_99)
  {
    ExampleBodiesAreNameChars();
    ConfdNameShape('9', '9', "change-percentages-local");
    assert EXAMPLE_99 == ['9', '9', '-'] + "change-percentages-local" + ".conf";
  }

  /** Two accepted, queryable entries are candidates in directory order. */
  lemma TwoCandidates(dir: string, a: string, b: string)
    requires IsConfdName(a) && IsConfdName(b)
    ensures Candidates(dir, [DirEntry(a, true), DirEntry(b, true)]) == [BuildPath(dir, a), BuildPath(dir, b)]
  {
    var entries := [DirEntry(a, true), DirEntry(b, true)];
    assert entries[..1] == [DirEntry(a, true)];
    assert entries[..1][..0] == [];
  }

  /** Two paths out of strcmp order are swapped. */
  lemma SortTwo(x: string, y: string)
    requires !StrLe(x, y)
    ensures SortStrcmp([x, y]) == [y, x]
  {
    var both := [x, y];
    assert both[1..] == [y];
    assert [y][1..] == [];
  }

  /** The 70- file is applied before the 99- file, whatever the directory order. */
  lemma ExampleOrder()
    ensures ConfdFiles(EXAMPLE_DIR, EXAMPLE_ENTRIES) == [BuildPath(EXAMPLE_DIR, EXAMPLE_70), BuildPath(EXAMPLE_DIR, EXAMPLE_99)]
  {
    Example70Accepted();
    Example99Accepted();
    TwoCandidates(EXAMPLE_DIR, EXAMPLE_99, EXAMPLE_70);
    assert !StrLe(EXAMPLE_99, EXAMPLE_70) by {
      assert EXAMPLE_99[0] == '9' && EXAMPLE_70[0] == '7';
    }
    StrLeCommonPrefix(EXAMPLE_DIR + "/", EXAMPLE_99, EXAMPLE_70);
    SortTwo(BuildPath(EXAMPLE_DIR, EXAMPLE_99), BuildPath(EXAMPLE_DIR, EXAMPLE_70));
  }

  /** Two drop-ins are applied first, then second. */
  lemma ApplyTwo(kf: KeyFile, first: string, second: string, load: string -> Confd)
    ensures ApplyFiles(kf, [first, second], load) == Overridden(Overridden(kf, load(first)), load(second))
  {
    var both := [first, second];
    var one := [first];
    assert both[..1] == one && one[..0] == [];
    assert ApplyFiles(kf, one, load) == Overridden(ApplyFiles(kf, [], load), load(first));
  }

  /** The 70- file's group replaces all three main-file values. */
  lemma ExampleMerge70()
    ensures Overridden(EXAMPLE_BASE, Loaded(map[UPOWER := EXAMPLE_GROUP_70])) == map[UPOWER := EXAMPLE_GROUP_70]
  {
    assert Merge(EXAMPLE_BASE[UPOWER], EXAMPLE_GROUP_70) == EXAMPLE_GROUP_70;
  }

  /** The 99- file's group then replaces PercentageAction only. */
  lemma ExampleMerge99()
    ensures Overridden(map[UPOWER := EXAMPLE_GROUP_70], Loaded(map[UPOWER := EXAMPLE_GROUP_99])) == map[UPOWER := EXAMPLE_RESULT]
  {
    assert Merge(EXAMPLE_GROUP_70, EXAMPLE_GROUP_99) == EXAMPLE_RESULT;
  }

  /** Applying the two drop-ins in order gives 15.0 / 10.0 / 7.5. */
  lemma ExampleOverrides()
    ensures var applied := ApplyFiles(EXAMPLE_BASE, [BuildPath(EXAMPLE_DIR, EXAMPLE_70), BuildPath(EXAMPLE_DIR, EXAMPLE_99)], ExampleLoad);
            UPOWER in applied && applied[UPOWER] == EXAMPLE_RESULT
  {
    var p70 := BuildPath(EXAMPLE_DIR, EXAMPLE_70);
    var p99 := BuildPath(EXAMPLE_DIR, EXAMPLE_99);
    assert p70 != p99 by {
      assert p70[|EXAMPLE_DIR| + 1] == '7' && p99[|EXAMPLE_DIR| + 1] == '9';
    }
    ApplyTwo(EXAMPLE_BASE, p70, p99, ExampleLoad);
    ExampleMerge70();
    ExampleMerge99();
  }

  /**
   * The documented outcome of up_config_init: the main file's 20.0 / 5.0 /
   * 2.0, then the 70- file's three values, then the 99- file's
   * PercentageAction, give PercentageLow 15.0, PercentageCritical 10.0 and
   * PercentageAction 7.5.
   */
  lemma DocumentedLayering()
    ensures var layered := Initial(Some(EXAMPLE_BASE), EXAMPLE_DIR, Some(EXAMPLE_ENTRIES), ExampleLoad);
            UPOWER in layered && layered[UPOWER] == EXAMPLE_RESULT
  {
    ExampleOrder();
    ExampleOverrides();
  }

  // ---------------------------------------------------------------------
  // Reading the [UPower] group (GLib's value parsers, as the getters use them)

  /** The raw value of a key of the [UPower] group. */
  function Lookup(kf: KeyFile, key: string): (v: Option<string>)
    ensures v.Some? <==> UPOWER in kf && key in kf[UPOWER]
  {
    if UPOWER in kf && key in kf[UPOWER] then Some(kf[UPOWER][key]) else None
  }

  const INT32_MIN: int := -0x8000_0000
  const INT32_MAX: int := 0x7FFF_FFFF

  /**
   * g_key_file_get_integer's parse: strtol in base 10; rejected when the text
   * is empty, when the character after the number is neither the end nor
   * whitespace, or when the number does not fit an int.
   */
  function ParseInteger(value: string): (r: Option<int>)
    ensures r.Some? ==> INT32_MIN <= r.value <= INT32_MAX
    ensures value == [] ==> r.None?
  {
    var conversion := Strtol(value);
    var n := if conversion.Some? then conversion.value.value else 0;
    var end := if conversion.Some? then conversion.value.end else 0;
    if value == [] || (end < |value| && !IsSpace(value[end])) then None
    else if n < INT32_MIN || n > INT32_MAX then None
    else Some(n)
  }

  /** g_key_file_get_integer: 0 when the key is missing or its value does not parse. */
  function GetInteger(kf: KeyFile, key: string): (n: int)
    ensures INT32_MIN <= n <= INT32_MAX
  {
    match Lookup(kf, key)
    case None => 0
    case Some(value) => ParseInteger(value).GetOr(0)
  }

  /** up_config_get_uint: the integer, with a negative one read as 0. */
  function GetUint(kf: KeyFile, key: string): (n: nat)
    ensures n <= INT32_MAX
    ensures n == if GetInteger(kf, key) < 0 then 0 else GetInteger(kf, key)
  {
    var value := GetInteger(kf, key);
    if value < 0 then 0 else value
  }

  /** A count written with "%d" reads back unchanged; a missing key or a negative one reads as 0. */
  lemma GetUintReadsPrinted(kf: KeyFile, key: string, n: nat)
    requires n <= INT32_MAX
    ensures Lookup(kf, key) == Some(Decimal(n)) ==> GetUint(kf, key) == n
    ensures Lookup(kf, key) == Some("-" + Decimal(n)) ==> GetUint(kf, key) == 0
    ensures Lookup(kf, key).None? ==> GetUint(kf, key) == 0
  {
    DecimalStrtol(n);
    var minus := "-" + Decimal(n);
    assert minus[1..] == Decimal(n);
    if Lookup(kf, key) == Some(minus) {
      NegativeDecimal(n);
    }
  }

  lemma NegativeDecimal(n: nat)
    ensures Strtol("-" + Decimal(n)).Some?
    ensures Strtol("-" + Decimal(n)).value.value + n == 0
    ensures Strtol("-" + Decimal(n)).value.end == |Decimal(n)| + 1
  {
    var s := "-" + Decimal(n);
    var d := Decimal(n);
    assert s[1..] == d;
    assert !IsSpace(s[0]);
    DigitRunOverDigits(s, 1);
    assert s[1..|s|] == d;
  }

  /**
   * g_key_file_get_double's parse: g_ascii_strtod, rejected when nothing
   * converts or anything, whitespace included, follows the number.
   */
  function ParseDouble(value: string): (r: Option<Double>)
    ensures r.Some? ==> Strtod(value).Some? && Strtod(value).value.end == |value|
  {
    match Strtod(value)
    case None => None
    case Some(c) => if c.end < |value| then None else Some(c.value)
  }

  /** g_key_file_get_double: 0 when the key is missing or its value does not parse. */
  function GetKeyDouble(kf: KeyFile, key: string): Double {
    match Lookup(kf, key)
    case None => Num(0.0)
    case Some(value) => ParseDouble(value).GetOr(Num(0.0))
  }

  /** C's conversion of a double to int: the fraction is dropped, toward zero. */
  function TruncateToInt(x: Double): (n: int)
    ensures x.Num? && x.v >= 0.0 ==> n as real <= x.v < n as real + 1.0
    ensures x.Num? && x.v < 0.0 ==> n as real - 1.0 < x.v <= n as real
  {
    match x
    case NaN => 0
    case Num(v) => if v >= 0.0 then v.Floor else -((-v).Floor)
  }

  /**
   * up_config_get_double as written: the value is stored in an int, so the
   * fraction is lost before the negative check; the result is a whole number.
   */
  function GetDoubleAsWritten(kf: KeyFile, key: string): (r: real)
    ensures r >= 0.0 && r == r.Floor as real
    ensures r == if TruncateToInt(GetKeyDouble(kf, key)) < 0 then 0.0 else TruncateToInt(GetKeyDouble(kf, key)) as real
  {
    var value := TruncateToInt(GetKeyDouble(kf, key));
    if value < 0 then 0.0 else value as real
  }

  /**
   * up_config_get_double as intended: the double itself, with a negative
   * one read as 0 (NaN compares false and passes through).
   */
  function GetDouble(kf: KeyFile, key: string): (r: Double)
    ensures r.NaN? <==> GetKeyDouble(kf, key).NaN?
    ensures r.Num? ==> r.v >= 0.0
    ensures r.Num? ==> r.v == if GetKeyDouble(kf, key).v < 0.0 then 0.0 else GetKeyDouble(kf, key).v
  {
    var value := GetKeyDouble(kf, key);
    if Less(value, 0.0) then Num(0.0) else value
  }

  /** "7.5" parses, whole, to 7.5. */
  lemma SevenAndAHalfParses()
    ensures ParseDouble("7.5") == Some(Num(7.5))
  {
    assert DigitRun("7.5", 0) == 1;
    assert DigitRun("7.5", 2) == 3;
    assert "7.5"[0..1] + "7.5"[2..3] == "75";
    assert DigitsValue("75") == 75;
    assert Exponent("7.5", 3) == (0, 3);
    assert Scale(75.0, -1) == 7.5;
  }

  /** The override from the documentation read through the getter as written: 7.5 becomes 7. */
  lemma PercentageActionTruncated(kf: KeyFile)
    requires Lookup(kf, "PercentageAction") == Some("7.5")
    ensures GetDoubleAsWritten(kf, "PercentageAction") == 7.0
  {
    SevenAndAHalfParses();
  }

  /** The same value read through the corrected getter: 7.5. */
  lemma PercentageActionExact(kf: KeyFile)
    requires Lookup(kf, "PercentageAction") == Some("7.5")
    ensures GetDouble(kf, "PercentageAction") == Num(7.5)
  {
    SevenAndAHalfParses();
  }

  /** The corrected getter keeps every non-negative value; the one as written agrees with it exactly on whole numbers. */
  lemma GettersAgreeOnWholeNumbers(kf: KeyFile, key: string)
    requires GetKeyDouble(kf, key).Num? && GetKeyDouble(kf, key).v >= 0.0
    ensures GetDouble(kf, key) == GetKeyDouble(kf, key)
    ensures GetDoubleAsWritten(kf, key) == GetKeyDouble(kf, key).v
            <==> GetKeyDouble(kf, key).v == GetKeyDouble(kf, key).v.Floor as real
  {
  }

  /**
   * g_key_file_get_boolean: "true" or "1" (trailing whitespace ignored) is
   * true; anything else, a missing key included, is false.
   */
  function GetBoolean(kf: KeyFile, key: string): (b: bool)
    ensures b ==> Lookup(kf, key).Some?
    ensures b <==> Lookup(kf, key).Some? && TrimEnd(Lookup(kf, key).value) in {"true", "1"}
  {
    match Lookup(kf, key)
    case None => false
    case Some(value) => TrimEnd(value) == "true" || TrimEnd(value) == "1"
  }

  /**
   * g_key_file_get_string: the raw value with the escapes \s, \n, \t, \r
   * and \\ decoded; None for any other escape or a backslash at the end.
   */
  function Unescape(raw: string): (r: Option<string>)
    ensures r.Some? ==> |r.value| <= |raw|
  {
    if raw == [] then Some([])
    else if raw[0] != '\\' then
      match Unescape(raw[1..])
      case None => None
      case Some(rest) => Some([raw[0]] + rest)
    else if |raw| == 1 then None
    else
      var decoded :=
        if raw[1] == 's' then Some(' ')
        else if raw[1] == 'n' then Some('\n')
        else if raw[1] == 't' then Some('\t')
        else if raw[1] == 'r' then Some('\r')
        else if raw[1] == '\\' then Some('\\')
        else None;
      match decoded
      case None => None
      case Some(c) =>
        match Unescape(raw[2..])
        case None => None
        case Some(rest) => Some([c] + rest)
  }

  /** How a string value is written so that it reads back: backslash, newline, tab and return escaped. */
  function Escape(text: string): (raw: string)
    ensures |raw| >= |text|
  {
    if text == [] then []
    else
      var c := text[0];
      var head := if c == '\\' then "\\\\" else if c == '\n' then "\\n" else if c == '\t' then "\\t" else if c == '\r' then "\\r" else [c];
      head + Escape(text[1..])
  }

  /** Escaped text is read back unchanged. */
  lemma {:induction false} UnescapeEscape(text: string)
    ensures Unescape(Escape(text)) == Some(text)
  {
    if text != [] {
      UnescapeEscape(text[1..]);
      var c := text[0];
      var raw := Escape(text);
      var tail := Escape(text[1..]);
      if c == '\\' || c == '\n' || c == '\t' || c == '\r' {
        assert raw[2..] == tail;
      } else {
        assert raw[1..] == tail;
      }
      assert text == [c] + text[1..];
    }
  }

  /** up_config_get_string: None when the key is missing or its value holds a bad escape. */
  function GetString(kf: KeyFile, key: string): (r: Option<string>)
    ensures r.Some? ==> Lookup(kf, key).Some? && Unescape(Lookup(kf, key).value) == r
    ensures Lookup(kf, key).Some? && Unescape(Lookup(kf, key).value).Some? ==> r.Some?
  {
    match Lookup(kf, key)
    case None => None
    case Some(value) => Unescape(value)
  }
}
