/** The Go standard-library string and path helpers the receivers call:
    `strings.Split`, `strings.HasSuffix` and `filepath.Dir`. */
module GoStrings {

  /** `strings.Split(s, string(sep))`: the fields between the separators,
      empty ones included; the empty string gives one empty field. */
  function Split(s: string, sep: char): (parts: seq<string>)
    ensures |parts| >= 1
    decreases |s|
  {
    if s == [] then [[]]
    else
      var rest := Split(s[1..], sep);
      if s[0] == sep then [[]] + rest
      else [[s[0]] + rest[0]] + rest[1..]
  }

  /** `strings.Join(parts, string(sep))`. */
  function Join(parts: seq<string>, sep: char): string
    requires |parts| >= 1
    decreases |parts|
  {
    if |parts| == 1 then parts[0] else parts[0] + [sep] + Join(parts[1..], sep)
  }

  /** No field holds the separator. */
  predicate Fields(parts: seq<string>, sep: char) {
    forall i :: 0 <= i < |parts| ==> sep !in parts[i]
  }

  /** Joining the fields of a split gives back the string, and no field
      holds the separator. */
  lemma {:induction false} JoinSplit(s: string, sep: char)
    ensures Join(Split(s, sep), sep) == s
    ensures Fields(Split(s, sep), sep)
    decreases |s|
  {
    if s != [] {
      var rest := Split(s[1..], sep);
      JoinSplit(s[1..], sep);
      assert s == [s[0]] + s[1..];
      if s[0] == sep {
        assert Split(s, sep)[1..] == rest;
      } else {
        var parts := Split(s, sep);
        assert parts[1..] == rest[1..];
        if |rest| > 1 {
          assert rest[0] + [sep] + Join(rest[1..], sep) == s[1..];
        }
      }
    }
  }

  /** Splitting a join of separator-free fields gives back the fields. */
  lemma {:induction false} SplitJoin(parts: seq<string>, sep: char)
    requires |parts| >= 1 && Fields(parts, sep)
    ensures Split(Join(parts, sep), sep) == parts
    decreases |parts|
  {
    if |parts| == 1 {
      SplitFree(parts[0], sep);
    } else {
      var tail := Join(parts[1..], sep);
      assert Fields(parts[1..], sep) by {
        forall i | 0 <= i < |parts[1..]|
          ensures sep !in parts[1..][i]
        {
          assert parts[1..][i] == parts[i + 1];
        }
      }
      SplitJoin(parts[1..], sep);
      SplitPrefix(parts[0], tail, sep);
      assert parts == [parts[0]] + parts[1..];
    }
  }

  /** A separator-free string splits into itself. */
  lemma {:induction false} SplitFree(s: string, sep: char)
    requires sep !in s
    ensures Split(s, sep) == [s]
    decreases |s|
  {
    if s != [] {
      assert sep !in s[1..] by {
        forall c | c in s[1..]
          ensures c != sep
        {
          var i :| 0 <= i < |s[1..]| && s[1..][i] == c;
          assert s[i + 1] == c;
        }
      }
      SplitFree(s[1..], sep);
      assert s == [s[0]] + s[1..];
    }
  }

  /** A separator-free field, the separator, then a tail: the field comes
      first and the tail's own fields follow. */
  lemma {:induction false} SplitPrefix(f: string, tail: string, sep: char)
    requires sep !in f
    ensures Split(f + [sep] + tail, sep) == [f] + Split(tail, sep)
    decreases |f|
  {
    var s := f + [sep] + tail;
    if f == [] {
      assert s[1..] == tail;
    } else {
      assert s[1..] == f[1..] + [sep] + tail;
      assert sep !in f[1..] by {
        forall c | c in f[1..]
          ensures c != sep
        {
          var i :| 0 <= i < |f[1..]| && f[1..][i] == c;
          assert f[i + 1] == c;
        }
      }
      SplitPrefix(f[1..], tail, sep);
      assert [f[0]] + f[1..] == f;
    }
  }

  /** `strings.HasSuffix(s, suffix)`. */
  predicate HasSuffix(s: string, suffix: string) {
    |suffix| <= |s| && s[|s| - |suffix|..] == suffix
  }

  /** The index of the last `/` in a path, if any. */
  function LastSlash(path: string): (r: int)
    ensures -1 <= r < |path|
    ensures r >= 0 ==> path[r] == '/'
    ensures forall i :: r < i < |path| ==> path[i] != '/'
    decreases |path|
  {
    if path == [] then -1
    else if path[|path| - 1] == '/' then |path| - 1
    else LastSlash(path[..|path| - 1])
  }

  /** The path without its trailing slashes. */
  function TrimTrailingSlashes(path: string): (r: string)
    ensures |r| <= |path| && r == path[..|r|]
    ensures r == [] || r[|r| - 1] != '/'
    decreases |path|
  {
    if path != [] && path[|path| - 1] == '/' then TrimTrailingSlashes(path[..|path| - 1]) else path
  }

  /** `filepath.Dir(path)` for a slash-separated path: everything before
      the last `/` without its trailing slashes, `/` when that leaves
      nothing of a rooted path, and `.` when there is no `/` at all. */
  function Dir(path: string): (r: string)
    ensures r != []
    ensures '/' !in path ==> r == "."
  {
    var i := LastSlash(path);
    if i < 0 then
      assert forall k :: 0 <= k < |path| ==> path[k] != '/';
      "."
    else
      var d := TrimTrailingSlashes(path[..i]);
      if d == [] then "/" else d
  }

  /** The directory of `dir + "/" + name` for a base name without `/` is
      `dir` itself, when `dir` is not empty and does not end in `/`. */
  lemma DirOfJoin(dir: string, name: string)
    requires dir != [] && dir[|dir| - 1] != '/' && '/' !in name
    ensures Dir(dir + "/" + name) == dir
  {
    var path := dir + "/" + name;
    assert path[|dir|] == '/';
    assert forall k :: |dir| < k < |path| ==> path[k] == name[k - |dir| - 1];
    assert LastSlash(path) == |dir|;
    assert path[..|dir|] == dir;
    assert TrimTrailingSlashes(dir) == dir;
  }
}
