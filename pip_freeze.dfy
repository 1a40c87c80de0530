/**
  The line parser inside `get_installed_packages` of AIStrategy.py: each
  `pip freeze` line of the form `name==version` becomes an entry of a
  name -> version map. Running `pip freeze` and splitting its output into
  lines happen before the loop.
*/
module PipFreeze {
  import opened Base

  /** `line` has the two-character separator `==` at position `i`. */
  predicate SeparatorAt(line: string, i: int)
  {
    0 <= i && i + 1 < |line| && line[i] == '=' && line[i + 1] == '='
  }

  /** The first position at or after `from` where `==` starts. */
  function FindSeparator(line: string, from: nat): (r: Option<nat>)
    decreases |line| - from
    ensures r.Some? ==> from <= r.value && SeparatorAt(line, r.value)
    ensures r.Some? ==> forall j :: from <= j < r.value ==> !SeparatorAt(line, j)
    ensures r.None? ==> forall j :: from <= j ==> !SeparatorAt(line, j)
  {
    if from + 1 >= |line| then None
    else if line[from] == '=' && line[from + 1] == '=' then Some(from)
    else FindSeparator(line, from + 1)
  }

  /** `"==" in line` */
  predicate HasSeparator(line: string)
  {
    FindSeparator(line, 0).Some?
  }

  datatype Requirement = Requirement(name: string, version: string)

  /** `line.split("==", 1)`: the text before the first `==` and everything
      after it, later `==` included. */
  function SplitFirst(line: string): (r: Option<Requirement>)
    ensures r.Some? <==> exists i :: SeparatorAt(line, i)
    ensures r.Some? ==> line == r.value.name + "==" + r.value.version
    ensures r.Some? ==> forall j :: 0 <= j < |r.value.name| ==> !SeparatorAt(line, j)
  {
    match FindSeparator(line, 0)
    case None => None
    case Some(i) =>
      assert line == line[..i] + "==" + line[i + 2..];
      Some(Requirement(line[..i], line[i + 2..]))
  }

  /** The map the loop has built after reading `lines`. */
  function Packages(lines: seq<string>): map<string, string>
  {
    if lines == [] then map[]
    else
      var before := Packages(lines[..|lines| - 1]);
      match SplitFirst(lines[|lines| - 1])
      case None => before
      case Some(req) => before[req.name := req.version]
  }

  /** Line `j` of `lines` is a requirement for package `name`. */
  predicate Names(lines: seq<string>, j: int, name: string)
  {
    0 <= j < |lines| && SplitFirst(lines[j]).Some? && SplitFirst(lines[j]).value.name == name
  }

  /** The parse loop: later lines for the same name overwrite earlier ones,
      and lines without `==` are skipped. */
  method GetInstalledPackages(lines: seq<string>) returns (packages: map<string, string>)
    ensures packages == Packages(lines)
  {
    packages := map[];
    for i := 0 to |lines|
      invariant packages == Packages(lines[..i])
    {
      var line := lines[i];
      assert lines[..i + 1][..i] == lines[..i];
      var split := SplitFirst(line);
      if split.Some? {
        packages := packages[split.value.name := split.value.version];
      }
    }
    assert lines[..|lines|] == lines;
  }

  /** The keys of the map are exactly the names of the lines that contain
      `==`. */
  lemma {:induction false} KeysAreNames(lines: seq<string>, name: string)
    ensures name in Packages(lines) <==> exists j :: Names(lines, j, name)
  {
    if lines != [] {
      var prefix := lines[..|lines| - 1];
      var last := |lines| - 1;
      KeysAreNames(prefix, name);
      var split := SplitFirst(lines[last]);
      if split.Some? && split.value.name == name {
        assert Names(lines, last, name);
      } else {
        assert name in Packages(lines) <==> name in Packages(prefix);
        if exists j :: Names(prefix, j, name) {
          var j :| Names(prefix, j, name);
          assert prefix[j] == lines[j];
          assert Names(lines, j, name);
        }
        if exists j :: Names(lines, j, name) {
          var j :| Names(lines, j, name);
          assert j != last;
          assert prefix[j] == lines[j];
          assert Names(prefix, j, name);
        }
      }
    }
  }

  /** Each entry holds the version of the LAST line naming that package. */
  lemma {:induction false} LastLineWins(lines: seq<string>, name: string)
    requires name in Packages(lines)
    ensures exists j :: Names(lines, j, name) &&
                        Packages(lines)[name] == SplitFirst(lines[j]).value.version &&
                        forall k :: j < k < |lines| ==> !Names(lines, k, name)
  {
    var prefix := lines[..|lines| - 1];
    var last := |lines| - 1;
    var split := SplitFirst(lines[last]);
    if split.Some? && split.value.name == name {
      assert Names(lines, last, name);
    } else {
      assert Packages(lines) == (if split.Some? then Packages(prefix)[split.value.name := split.value.version]
                                 else Packages(prefix));
      assert Packages(lines)[name] == Packages(prefix)[name];
      LastLineWins(prefix, name);
      var j :| Names(prefix, j, name) &&
               Packages(prefix)[name] == SplitFirst(prefix[j]).value.version &&
               forall k :: j < k < |prefix| ==> !Names(prefix, k, name);
      assert prefix[j] == lines[j];
      assert Names(lines, j, name);
      forall k | j < k < |lines| ensures !Names(lines, k, name) {
        if k < |prefix| {
          assert prefix[k] == lines[k];
          assert !Names(prefix, k, name);
        }
      }
    }
  }

  /** A line without `==` adds nothing, wherever it appears. */
  lemma {:induction false} LineWithoutSeparatorIgnored(before: seq<string>, line: string, after: seq<string>)
    requires !HasSeparator(line)
    ensures Packages(before + [line] + after) == Packages(before + after)
  {
    if after == [] {
      assert (before + [line])[..|before + [line]| - 1] == before;
      assert before + [line] + after == before + [line];
      assert before + after == before;
    } else {
      var init := after[..|after| - 1];
      LineWithoutSeparatorIgnored(before, line, init);
      assert (before + [line] + after)[..|before + [line] + after| - 1] == before + [line] + init;
      assert (before + after)[..|before + after| - 1] == before + init;
    }
  }
}
