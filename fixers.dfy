/** The source-hygiene helpers: smell detection (src/fixer/smell-detector.js),
    folder validation (src/fixer/folder-fixer.js) and the camelCase to
    kebab-case name fix (src/fixer/naming-fixer.js). */
module Fixers {
  import opened Wrappers
  import opened Strings

  const ConsoleSmell := "Remove console.log from production code"
  const LongFunctionSmell := "Function too long — consider splitting"
  const VarSmell := "Use let/const instead of var"
  const TodoSmell := "TODO found — ensure completion"

  /** The smells in the order they are checked. */
  const AllSmells := [ConsoleSmell, LongFunctionSmell, VarSmell, TodoSmell]

  /** `detectSmells(code)`: the message of each check that fires, in check order. */
  function DetectSmells(code: string): (r: seq<string>)
    ensures ConsoleSmell in r <==> Contains(code, "console.log")
    ensures LongFunctionSmell in r <==> Contains(code, "function") && |code| > 500
    ensures VarSmell in r <==> Contains(code, "var ")
    ensures TodoSmell in r <==> Contains(code, "TODO")
  {
    var console := if Contains(code, "console.log") then [ConsoleSmell] else [];
    var long := if Contains(code, "function") && |code| > 500 then [LongFunctionSmell] else [];
    var var_ := if Contains(code, "var ") then [VarSmell] else [];
    var todo := if Contains(code, "TODO") then [TodoSmell] else [];
    console + long + var_ + todo
  }

  /** The smells come in the order the checks run. */
  lemma SmellsInCheckOrder(code: string)
    ensures var r := DetectSmells(code);
      forall i, j :: 0 <= i < j < |r| ==> exists a, b :: 0 <= a < b < |AllSmells| && r[i] == AllSmells[a] && r[j] == AllSmells[b]
  {
    assert AllSmells[0] == ConsoleSmell && AllSmells[1] == LongFunctionSmell;
    assert AllSmells[2] == VarSmell && AllSmells[3] == TodoSmell;
  }

  /** Code that triggers no check has no smells, and there are never more than four. */
  lemma SmellsBound(code: string)
    ensures |DetectSmells(code)| <= 4
    ensures DetectSmells(code) == [] <==>
      !Contains(code, "console.log") && !(Contains(code, "function") && |code| > 500) &&
      !Contains(code, "var ") && !Contains(code, "TODO")
  {
  }

  /** `s.split(sep)`: the pieces between separators, an empty string where two
      separators meet or at either end. */
  function Split(s: string, sep: char): (r: seq<string>)
    ensures |r| >= 1
    ensures forall i :: 0 <= i < |r| ==> sep !in r[i]
  {
    if s == [] then [""]
    else
      var rest := Split(s[1..], sep);
      if s[0] == sep then [""] + rest
      else [[s[0]] + rest[0]] + rest[1..]
  }

  /** `parts.join(sep)` */
  function Join(parts: seq<string>, sep: char): string
    requires |parts| >= 1
  {
    if |parts| == 1 then parts[0] else parts[0] + [sep] + Join(parts[1..], sep)
  }

  /** Joining the pieces with the separator gives the string back. */
  lemma {:induction false} SplitJoin(s: string, sep: char)
    ensures Join(Split(s, sep), sep) == s
  {
    if s != [] {
      var rest := Split(s[1..], sep);
      SplitJoin(s[1..], sep);
      if s[0] == sep {
        assert ([""] + rest)[1..] == rest;
        assert s == [sep] + s[1..];
      } else if |rest| == 1 {
        assert s == [s[0]] + s[1..];
      } else {
        var r := [[s[0]] + rest[0]] + rest[1..];
        assert r[1..] == rest[1..];
        assert Join(rest, sep) == rest[0] + [sep] + Join(rest[1..], sep);
        assert s == [s[0]] + s[1..];
      }
    }
  }

  /** A string without the separator is a single piece. */
  lemma {:induction false} SplitNoSeparator(s: string, sep: char)
    requires sep !in s
    ensures Split(s, sep) == [s]
  {
    if s != [] {
      assert sep !in s[1..];
      SplitNoSeparator(s[1..], sep);
      assert [s[0]] + s[1..] == s;
    }
  }

  const ValidRoots := ["core", "domain", "events", "utils", "adapters", "orchestrator"]
  const WrongFolder := "File is in the wrong folder — move to correct module"

  datatype FolderCheck = FolderCheck(valid: bool, message: Option<string>)

  /** `validateFolder(path)`: the root is the second "/"-separated piece; a path
      with no "/" has none and is invalid. */
  function ValidateFolder(path: string): (r: FolderCheck)
    ensures r.valid <==> |Split(path, '/')| > 1 && Split(path, '/')[1] in ValidRoots
    ensures r.valid ==> r.message.None?
    ensures !r.valid ==> r.message == Some(WrongFolder)
  {
    var parts := Split(path, '/');
    var root := if |parts| > 1 then Some(parts[1]) else None;
    if root.None? || root.value !in ValidRoots then FolderCheck(false, Some(WrongFolder))
    else FolderCheck(true, None)
  }

  /** A path with no "/" is always in the wrong folder. */
  lemma NoSlashInvalid(path: string)
    requires '/' !in path
    ensures !ValidateFolder(path).valid
  {
    SplitNoSeparator(path, '/');
  }

  /** A path `top/root/rest` is valid exactly when `root` is a valid root. */
  lemma FolderOfPath(top: string, root: string, rest: string)
    requires '/' !in top && '/' !in root
    ensures ValidateFolder(top + "/" + root + "/" + rest).valid <==> root in ValidRoots
  {
    var path := top + "/" + root + "/" + rest;
    SplitAfter(top, root + "/" + rest, '/');
    SplitAfter(root, rest, '/');
    assert path == top + ['/'] + (root + "/" + rest);
    assert root + "/" + rest == root + ['/'] + rest;
  }

  /** Splitting at the first separator: the piece before it, then the pieces of
      what follows. */
  lemma {:induction false} SplitAfter(head: string, tail: string, sep: char)
    requires sep !in head
    ensures Split(head + [sep] + tail, sep) == [head] + Split(tail, sep)
  {
    if head == [] {
      assert head + [sep] + tail == [sep] + tail;
      assert ([sep] + tail)[1..] == tail;
    } else {
      var s := head + [sep] + tail;
      assert s[0] == head[0] && s[1..] == head[1..] + [sep] + tail;
      SplitAfter(head[1..], tail, sep);
      assert [head[0]] + head[1..] == head;
    }
  }

  predicate IsLower(c: char) {
    'a' <= c <= 'z'
  }

  predicate IsUpper(c: char) {
    'A' <= c <= 'Z'
  }

  /** The character `toLowerCase` gives for an ASCII letter. */
  function ToLower(c: char): (r: char)
    ensures !IsUpper(r)
    ensures !IsUpper(c) ==> r == c
  {
    if IsUpper(c) then (c as int - 'A' as int + 'a' as int) as char else c
  }

  /** `s.toLowerCase()` on ASCII letters. */
  function Lower(s: string): (r: string)
    ensures |r| == |s|
    ensures forall i :: 0 <= i < |s| ==> r[i] == ToLower(s[i])
  {
    if s == [] then [] else [ToLower(s[0])] + Lower(s[1..])
  }

  /** `s.replace(/([a-z])([A-Z])/g, "$1-$2")`: a hyphen between every lower-case
      letter and the upper-case letter after it. Matches cannot overlap, since a
      letter cannot be both. */
  function Hyphenate(s: string): string {
    if |s| < 2 then s
    else if IsLower(s[0]) && IsUpper(s[1]) then [s[0], '-'] + Hyphenate(s[1..])
    else [s[0]] + Hyphenate(s[1..])
  }

  /** The number of lower-to-upper boundaries in `s`. */
  function Boundaries(s: string): nat {
    if |s| < 2 then 0 else (if IsLower(s[0]) && IsUpper(s[1]) then 1 else 0) + Boundaries(s[1..])
  }

  datatype NamingFix = NamingFix(original: string, suggested: string)

  /** `suggestNamingFix(filename)`: the name itself, and its kebab-case form. */
  function SuggestNamingFix(filename: string): (r: NamingFix)
    ensures r.original == filename
    ensures forall i :: 0 <= i < |r.suggested| ==> !IsUpper(r.suggested[i])
  {
    NamingFix(filename, Lower(Hyphenate(filename)))
  }

  /** The suggestion is one character longer per boundary. */
  lemma {:induction false} HyphenateLength(s: string)
    ensures |Hyphenate(s)| == |s| + Boundaries(s)
  {
    if |s| >= 2 {
      HyphenateLength(s[1..]);
    }
  }

  /** A string without upper-case letters has no boundary to mark. */
  lemma {:induction false} HyphenateNoUpper(s: string)
    requires forall i :: 0 <= i < |s| ==> !IsUpper(s[i])
    ensures Hyphenate(s) == s
  {
    if |s| >= 2 {
      HyphenateNoUpper(s[1..]);
      assert [s[0]] + s[1..] == s;
    }
  }

  lemma {:induction false} LowerNoUpper(s: string)
    requires forall i :: 0 <= i < |s| ==> !IsUpper(s[i])
    ensures Lower(s) == s
  {
  }

  /** The fix is idempotent: the suggestion of a suggestion is itself. */
  lemma SuggestIdempotent(filename: string)
    ensures var s := SuggestNamingFix(filename).suggested;
      SuggestNamingFix(s).suggested == s
  {
    var s := SuggestNamingFix(filename).suggested;
    HyphenateNoUpper(s);
    LowerNoUpper(s);
  }

  /** The suggestion has the name's length plus one per boundary. */
  lemma SuggestLength(filename: string)
    ensures |SuggestNamingFix(filename).suggested| == |filename| + Boundaries(filename)
  {
    HyphenateLength(filename);
  }
}
