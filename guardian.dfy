/** The intrusion check (src/cli/cyborg-guardian.js): every `.js` file of the CLI
    directory is hashed and compared with its entry in the hash manifest. The
    SHA-256 hex digest is the parameter `digest`; the directory listing and the
    parsed manifest (`None` when the manifest file is missing) are inputs. */
module Guardian {
  import opened Wrappers
  import opened Strings

  datatype CliFile = CliFile(name: string, content: string)

  datatype Issue = UnknownCli(file: string) | Tampered(file: string, expected: string, actual: string)

  /** `manifest[file]` is truthy: present and not the empty string. */
  predicate Listed(manifest: map<string, string>, name: string) {
    name in manifest && manifest[name] != ""
  }

  /** The issue one file raises: unknown when the manifest has no usable entry for
      it, tampered when the entry differs from the file's digest, none otherwise. */
  function IssueOf(file: CliFile, manifest: map<string, string>, digest: string -> string): (r: Option<Issue>)
    ensures r.Some? ==> r.value.file == file.name
  {
    if !Listed(manifest, file.name) then Some(UnknownCli(file.name))
    else
      var hash := digest(file.content);
      if manifest[file.name] != hash then Some(Tampered(file.name, manifest[file.name], hash)) else None
  }

  /** The three outcomes for one file, and the file each issue names. */
  lemma IssueOfCases(file: CliFile, manifest: map<string, string>, digest: string -> string)
    ensures var r := IssueOf(file, manifest, digest);
      && (r == Some(UnknownCli(file.name)) <==> !Listed(manifest, file.name))
      && (r.Some? && r.value.Tampered? <==> Listed(manifest, file.name) && manifest[file.name] != digest(file.content))
      && (r.Some? && r.value.Tampered? ==> r.value == Tampered(file.name, manifest[file.name], digest(file.content)))
      && (r.None? <==> Listed(manifest, file.name) && manifest[file.name] == digest(file.content))
      && (r.Some? ==> r.value.file == file.name)
  {
  }

  /** `Some(x)` as `[x]`, `None` as `[]`. */
  function AsSeq(o: Option<Issue>): seq<Issue> {
    if o.Some? then [o.value] else []
  }

  /** The issues of `files` in file order, at most one per file. */
  function IssuesOf(files: seq<CliFile>, manifest: map<string, string>, digest: string -> string): (r: seq<Issue>)
    ensures |r| <= |files|
  {
    if files == [] then []
    else
      var n := |files| - 1;
      IssuesOf(files[..n], manifest, digest) + AsSeq(IssueOf(files[n], manifest, digest))
  }

  /** Every issue names a scanned file, and there is none exactly when every file
      is listed with its own digest. */
  lemma IssuesOfFiles(files: seq<CliFile>, manifest: map<string, string>, digest: string -> string)
    ensures forall x :: x in IssuesOf(files, manifest, digest) ==> exists i :: 0 <= i < |files| && files[i].name == x.file
    ensures IssuesOf(files, manifest, digest) == [] <==>
      forall i :: 0 <= i < |files| ==> Listed(manifest, files[i].name) && manifest[files[i].name] == digest(files[i].content)
  {
    IssuesNameFiles(files, manifest, digest);
    IssuesNoneIffClean(files, manifest, digest);
  }

  lemma {:induction false} IssuesNameFiles(files: seq<CliFile>, manifest: map<string, string>, digest: string -> string)
    ensures forall x :: x in IssuesOf(files, manifest, digest) ==> exists i :: 0 <= i < |files| && files[i].name == x.file
  {
    if files != [] {
      var n := |files| - 1;
      var prev := IssuesOf(files[..n], manifest, digest);
      var last := AsSeq(IssueOf(files[n], manifest, digest));
      IssuesNameFiles(files[..n], manifest, digest);
      assert IssuesOf(files, manifest, digest) == prev + last;
      forall x: Issue | x in prev + last ensures exists i :: 0 <= i < |files| && files[i].name == x.file {
        if x in prev {
          var i :| 0 <= i < n && files[..n][i].name == x.file;
          assert files[i] == files[..n][i];
        } else {
          IssueOfCases(files[n], manifest, digest);
          assert x == IssueOf(files[n], manifest, digest).value;
        }
      }
    }
  }

  lemma {:induction false} IssuesNoneIffClean(files: seq<CliFile>, manifest: map<string, string>, digest: string -> string)
    ensures IssuesOf(files, manifest, digest) == [] <==>
      forall i :: 0 <= i < |files| ==> Listed(manifest, files[i].name) && manifest[files[i].name] == digest(files[i].content)
  {
    if files != [] {
      var n := |files| - 1;
      var prev := IssuesOf(files[..n], manifest, digest);
      var last := IssueOf(files[n], manifest, digest);
      IssuesNoneIffClean(files[..n], manifest, digest);
      IssueOfCases(files[n], manifest, digest);
      assert IssuesOf(files, manifest, digest) == prev + AsSeq(last);
      assert prev + AsSeq(last) == [] <==> prev == [] && last.None?;
      assert forall i :: 0 <= i < n ==> files[..n][i] == files[i];
    }
  }

  /** One more file adds its own issue at the end. */
  lemma IssuesSnoc(files: seq<CliFile>, file: CliFile, manifest: map<string, string>, digest: string -> string)
    ensures IssuesOf(files + [file], manifest, digest) == IssuesOf(files, manifest, digest) + AsSeq(IssueOf(file, manifest, digest))
  {
    assert (files + [file])[..|files|] == files;
  }

  /** The issues of one more file of a list: those of the shorter prefix, then the
      file's own. */
  lemma IssuesStep(files: seq<CliFile>, i: nat, manifest: map<string, string>, digest: string -> string)
    requires i < |files|
    ensures IssuesOf(files[..i + 1], manifest, digest) ==
      IssuesOf(files[..i], manifest, digest) + AsSeq(IssueOf(files[i], manifest, digest))
  {
    assert files[..i + 1][..i] == files[..i];
  }

  /** Issues follow the files: those of a list of files are those of its first part
      followed by those of the rest. */
  lemma {:induction false} IssuesAppend(f1: seq<CliFile>, f2: seq<CliFile>, manifest: map<string, string>, digest: string -> string)
    ensures IssuesOf(f1 + f2, manifest, digest) == IssuesOf(f1, manifest, digest) + IssuesOf(f2, manifest, digest)
    decreases |f2|
  {
    if f2 == [] {
      assert f1 + f2 == f1;
    } else {
      var front, file := f2[..|f2| - 1], f2[|f2| - 1];
      assert f2 == front + [file];
      assert f1 + f2 == (f1 + front) + [file];
      IssuesSnoc(f1 + front, file, manifest, digest);
      IssuesSnoc(front, file, manifest, digest);
      IssuesAppend(f1, front, manifest, digest);
      ConcatRegroup(IssuesOf(f1, manifest, digest), IssuesOf(front, manifest, digest),
        AsSeq(IssueOf(file, manifest, digest)), IssuesOf(f1 + front, manifest, digest));
    }
  }

  lemma ConcatRegroup(a: seq<Issue>, b: seq<Issue>, c: seq<Issue>, ab: seq<Issue>)
    requires ab == a + b
    ensures ab + c == a + (b + c)
  {
  }

  /** A single file contributes exactly its own issue. */
  lemma IssuesSingle(file: CliFile, manifest: map<string, string>, digest: string -> string)
    ensures IssuesOf([file], manifest, digest) == AsSeq(IssueOf(file, manifest, digest))
  {
    assert [file][..0] == [];
  }

  /** `fs.readdirSync(cliDir).filter(f => f.endsWith(".js"))`. */
  function JsFiles(listing: seq<CliFile>): (r: seq<CliFile>)
    ensures forall f :: f in r <==> f in listing && EndsWith(f.name, ".js")
    ensures |r| <= |listing|
  {
    if listing == [] then []
    else (if EndsWith(listing[0].name, ".js") then [listing[0]] else []) + JsFiles(listing[1..])
  }

  /** The filter keeps every `.js` file as often as the listing has it. */
  lemma {:induction false} JsFilesCount(listing: seq<CliFile>, f: CliFile)
    ensures multiset(JsFiles(listing))[f] == if EndsWith(f.name, ".js") then multiset(listing)[f] else 0
  {
    if listing != [] {
      JsFilesCount(listing[1..], f);
      assert listing == [listing[0]] + listing[1..];
    }
  }

  /** The filter keeps the listing order: filtering two parts in turn is filtering
      the whole. */
  lemma {:induction false} JsFilesAppend(a: seq<CliFile>, b: seq<CliFile>)
    ensures JsFiles(a + b) == JsFiles(a) + JsFiles(b)
  {
    if a == [] {
      assert a + b == b;
    } else {
      assert (a + b)[1..] == a[1..] + b;
      JsFilesAppend(a[1..], b);
    }
  }

  /** The exit code, the issues found and whether a security alert event is
      written. */
  datatype Report = Report(exitCode: int, issues: seq<Issue>, alertWritten: bool)

  /** The script: exit 1 without scanning when the manifest is missing; otherwise
      check each `.js` file in listing order and write an alert when any issue is
      found. Both outcomes of a scan exit with status 0. */
  method Scan(manifest: Option<map<string, string>>, listing: seq<CliFile>, digest: string -> string) returns (report: Report)
    ensures manifest.None? ==> report == Report(1, [], false)
    ensures manifest.Some? ==> report.exitCode == 0
    ensures manifest.Some? ==> report.issues == IssuesOf(JsFiles(listing), manifest.value, digest)
    ensures report.alertWritten <==> report.issues != []
  {
    if manifest.None? {
      return Report(1, [], false);
    }
    var entries := manifest.value;
    var files := JsFiles(listing);
    var issues: seq<Issue> := [];
    assert files[..0] == [];
    for i := 0 to |files|
      invariant issues == IssuesOf(files[..i], entries, digest)
    {
      var file := files[i];
      IssuesStep(files, i, entries, digest);
      ghost var next := IssuesOf(files[..i + 1], entries, digest);
      if !Listed(entries, file.name) {
        assert next == issues + [UnknownCli(file.name)];
        issues := issues + [UnknownCli(file.name)];
        assert issues == next;
        continue;
      }
      var hash := digest(file.content);
      if entries[file.name] != hash {
        assert next == issues + [Tampered(file.name, entries[file.name], hash)];
        issues := issues + [Tampered(file.name, entries[file.name], hash)];
      } else {
        assert next == issues + [];
      }
      assert issues == next;
    }
    assert files[..|files|] == files;
    if |issues| == 0 {
      return Report(0, issues, false);
    }
    report := Report(0, issues, true);
  }
}
