/** The snapshot diff (src/cli/cyborg-snapshot-diff.js): the two last snapshot
    files in name order are compared key by key. A snapshot is a parsed JSON
    object, given as its entries in `Object.keys` order; reading and parsing the
    files is left to the caller (`read`). */
module SnapshotDiff {
  import opened Wrappers
  import opened Strings
  import opened Sorting

  /** A parsed JSON value; numbers are integers. */
  datatype Json = JNull | JBool(b: bool) | JNum(n: int) | JStr(s: string) | JArr(items: seq<Json>) | JObj(fields: seq<Entry>)

  datatype Entry = Entry(key: string, value: Json)

  /** No key is listed twice, as in the keys of a JavaScript object. */
  predicate UniqueKeys(s: seq<Entry>) {
    forall i, j :: 0 <= i < j < |s| ==> s[i].key != s[j].key
  }

  /** `obj[key]`: the value under `key`, `None` for undefined. */
  function Lookup(s: seq<Entry>, key: string): (r: Option<Json>)
    ensures r.None? <==> forall i :: 0 <= i < |s| ==> s[i].key != key
    ensures r.Some? ==> exists i :: 0 <= i < |s| && s[i] == Entry(key, r.value)
  {
    if s == [] then None
    else if s[0].key == key then Some(s[0].value)
    else
      var r := Lookup(s[1..], key);
      assert forall i :: 0 < i < |s| ==> s[1..][i - 1] == s[i];
      r
  }

  /** With unique keys, the value listed under a key is the one looked up. */
  lemma {:induction false} LookupUnique(s: seq<Entry>, i: nat)
    requires UniqueKeys(s) && i < |s|
    ensures Lookup(s, s[i].key) == Some(s[i].value)
  {
    if i > 0 {
      assert s[1..][i - 1] == s[i];
      LookupUnique(s[1..], i - 1);
    }
  }

  /** JavaScript truthiness of a looked-up value: undefined, null, false, 0 and the
      empty string are falsy; every array and object is truthy. */
  predicate Truthy(v: Option<Json>) {
    match v
    case None => false
    case Some(JNull) => false
    case Some(JBool(b)) => b
    case Some(JNum(n)) => n != 0
    case Some(JStr(s)) => s != ""
    case Some(_) => true
  }

  datatype ChangeKind = Added | Modified | Removed

  datatype Change = Change(file: string, change: ChangeKind)

  /** The changes the loop over the keys of the newer snapshot `b` pushes: "added"
      where the older value is falsy, otherwise "modified" where the two values
      differ. Distinct parsed values serialise differently, so `JSON.stringify`
      equality is value equality. */
  function NewerChanges(b: seq<Entry>, a: seq<Entry>): (r: seq<Change>)
    ensures |r| <= |b|
    ensures forall c :: c in r ==> c.change != Removed
  {
    if b == [] then []
    else
      var n := |b| - 1;
      var key := b[n].key;
      var prev := NewerChanges(b[..n], a);
      if !Truthy(Lookup(a, key)) then prev + [Change(key, Added)]
      else if Lookup(a, key) != Some(b[n].value) then prev + [Change(key, Modified)]
      else prev
  }

  /** Every newer key falsy in the older snapshot is reported added, and every
      other newer key whose value changed is reported modified. */
  lemma {:induction false} NewerChangesComplete(b: seq<Entry>, a: seq<Entry>)
    ensures forall i :: 0 <= i < |b| && !Truthy(Lookup(a, b[i].key)) ==> Change(b[i].key, Added) in NewerChanges(b, a)
    ensures forall i :: 0 <= i < |b| && Truthy(Lookup(a, b[i].key)) && Lookup(a, b[i].key) != Some(b[i].value) ==>
      Change(b[i].key, Modified) in NewerChanges(b, a)
  {
    if b != [] {
      var n := |b| - 1;
      var prev := NewerChanges(b[..n], a);
      var r := NewerChanges(b, a);
      NewerChangesComplete(b[..n], a);
      assert forall c :: c in prev ==> c in r;
      forall i | 0 <= i < n
        ensures b[..n][i] == b[i]
      {
      }
    }
  }

  /** Only newer keys are reported: added ones are falsy in the older snapshot, and
      modified ones truthy there with a different value. */
  lemma {:induction false} NewerChangesSound(b: seq<Entry>, a: seq<Entry>)
    ensures forall k :: Change(k, Added) in NewerChanges(b, a) ==>
      !Truthy(Lookup(a, k)) && exists i :: 0 <= i < |b| && b[i].key == k
    ensures forall k :: Change(k, Modified) in NewerChanges(b, a) ==>
      Truthy(Lookup(a, k)) && exists i :: 0 <= i < |b| && b[i].key == k && Lookup(a, k) != Some(b[i].value)
  {
    if b != [] {
      var n := |b| - 1;
      var prev := NewerChanges(b[..n], a);
      var r := NewerChanges(b, a);
      NewerChangesSound(b[..n], a);
      assert forall c :: c in r ==> c in prev || c == r[|r| - 1];
      forall i | 0 <= i < n
        ensures b[..n][i] == b[i]
      {
      }
    }
  }

  /** The changes the loop over the keys of the older snapshot `a` pushes:
      "removed" where the newer value is falsy. */
  function OlderChanges(a: seq<Entry>, b: seq<Entry>): (r: seq<Change>)
    ensures |r| <= |a|
    ensures forall c :: c in r ==> c.change == Removed
    ensures forall k :: Change(k, Removed) in r <==>
      !Truthy(Lookup(b, k)) && exists i :: 0 <= i < |a| && a[i].key == k
  {
    if a == [] then []
    else
      var n := |a| - 1;
      var prev := OlderChanges(a[..n], b);
      assert forall i :: 0 <= i < n ==> a[..n][i] == a[i];
      if !Truthy(Lookup(b, a[n].key)) then prev + [Change(a[n].key, Removed)] else prev
  }

  /** The whole change list: every change from the newer keys, then every removal. */
  function DiffOf(a: seq<Entry>, b: seq<Entry>): seq<Change> {
    NewerChanges(b, a) + OlderChanges(a, b)
  }

  /** The two loops of the script, pushing into `changes`. */
  method Diff(a: seq<Entry>, b: seq<Entry>) returns (changes: seq<Change>)
    ensures changes == DiffOf(a, b)
  {
    changes := [];
    for i := 0 to |b|
      invariant changes == NewerChanges(b[..i], a)
    {
      assert b[..i + 1][..i] == b[..i];
      var key := b[i].key;
      if !Truthy(Lookup(a, key)) {
        changes := changes + [Change(key, Added)];
        continue;
      }
      if Lookup(a, key) != Some(b[i].value) {
        changes := changes + [Change(key, Modified)];
      }
    }
    assert b[..|b|] == b;
    ghost var newer := changes;
    for i := 0 to |a|
      invariant changes == newer + OlderChanges(a[..i], b)
    {
      assert a[..i + 1][..i] == a[..i];
      if !Truthy(Lookup(b, a[i].key)) {
        changes := changes + [Change(a[i].key, Removed)];
      }
    }
    assert a[..|a|] == a;
  }

  /** Two identical snapshots whose values are all truthy have no changes. */
  lemma DiffIdentical(s: seq<Entry>)
    requires UniqueKeys(s)
    requires forall i :: 0 <= i < |s| ==> Truthy(Some(s[i].value))
    ensures DiffOf(s, s) == []
  {
    var newer := NewerChanges(s, s);
    var older := OlderChanges(s, s);
    NewerChangesSound(s, s);
    forall i | 0 <= i < |s|
      ensures Lookup(s, s[i].key) == Some(s[i].value)
    {
      LookupUnique(s, i);
    }
    assert forall c :: c !in newer;
    assert forall c :: c !in older;
    EmptyWithoutMembers(newer);
    EmptyWithoutMembers(older);
  }

  lemma EmptyWithoutMembers(r: seq<Change>)
    ensures (forall c :: c !in r) ==> r == []
  {
    if r != [] {
      assert r[0] in r;
    }
  }

  /** A key present with a falsy value in both snapshots is reported both as added
      and as removed. */
  lemma DiffFalsyBoth(a: seq<Entry>, b: seq<Entry>, i: nat, j: nat)
    requires i < |a| && j < |b| && a[i].key == b[j].key
    requires !Truthy(Lookup(a, a[i].key)) && !Truthy(Lookup(b, b[j].key))
    ensures Change(a[i].key, Added) in DiffOf(a, b) && Change(a[i].key, Removed) in DiffOf(a, b)
  {
    NewerChangesComplete(b, a);
  }

  /** `fs.readdirSync(dir).filter(f => f.endsWith(".json"))`. */
  function JsonFiles(names: seq<string>): (r: seq<string>)
    ensures forall f :: f in r <==> f in names && EndsWith(f, ".json")
    ensures |r| <= |names|
  {
    if names == [] then []
    else (if EndsWith(names[0], ".json") then [names[0]] else []) + JsonFiles(names[1..])
  }

  lemma LexPreorder(s: seq<string>)
    ensures PreorderOn(s, LexLe)
  {
    forall a, b | a in s && b in s
      ensures LexLe(a, b) || LexLe(b, a)
    {
      LexTotal(a, b);
    }
    forall a, b, c | a in s && b in s && c in s && LexLe(a, b) && LexLe(b, c)
      ensures LexLe(a, c)
    {
      LexTransitive(a, b, c);
    }
  }

  /** In a name-sorted list every name sorts before the last one, and every name
      other than the last before the one next to last. */
  lemma SortedTopTwo(t: seq<string>, f: string)
    requires |t| >= 2 && SortedBy(t, LexLe) && f in t
    ensures LexLe(f, t[|t| - 1]) && (f != t[|t| - 1] ==> LexLe(f, t[|t| - 2]))
  {
    var n := |t|;
    var j :| 0 <= j < n && t[j] == f;
    LexTotal(f, f);
    if j < n - 2 {
      assert LexLe(t[j], t[n - 2]);
    }
  }

  /** The last two entries of a name-sorted permutation of `s`: both are names of
      `s`, and every other name sorts before the older one. */
  lemma SortedTopOf(s: seq<string>, t: seq<string>)
    requires |t| >= 2 && SortedBy(t, LexLe) && multiset(t) == multiset(s)
    ensures t[|t| - 2] in s && t[|t| - 1] in s && LexLe(t[|t| - 2], t[|t| - 1])
    ensures forall f :: f in s ==> LexLe(f, t[|t| - 1]) && (f != t[|t| - 1] ==> LexLe(f, t[|t| - 2]))
  {
    var n := |t|;
    assert t[n - 2] in multiset(t) && t[n - 1] in multiset(t);
    forall f | f in s
      ensures LexLe(f, t[n - 1]) && (f != t[n - 1] ==> LexLe(f, t[n - 2]))
    {
      assert f in multiset(s);
      SortedTopTwo(t, f);
    }
  }

  /** The last two entries of the name-sorted list: every other name sorts before
      the older one. */
  lemma SortedTop(s: seq<string>)
    requires |s| >= 2
    ensures var t := SortWith(s, LexLe); var n := |t|;
      && t[n - 2] in s && t[n - 1] in s && LexLe(t[n - 2], t[n - 1])
      && forall f :: f in s ==> LexLe(f, t[n - 1]) && (f != t[n - 1] ==> LexLe(f, t[n - 2]))
  {
    LexPreorder(s);
    SortSorted(s, LexLe);
    SortedTopOf(s, SortWith(s, LexLe));
  }

  /** The snapshot pair the script compares: the last two `.json` names in sorted
      order, or none when there are fewer than two. */
  function LatestPair(names: seq<string>): (r: Option<(string, string)>)
    ensures r.None? <==> |JsonFiles(names)| < 2
    ensures r.Some? ==> var (older, newer) := r.value;
      && older in names && EndsWith(older, ".json") && newer in names && EndsWith(newer, ".json")
      && LexLe(older, newer)
      && forall f :: f in names && EndsWith(f, ".json") ==> LexLe(f, newer) && (f != newer ==> LexLe(f, older))
  {
    var snaps := SortWith(JsonFiles(names), LexLe);
    if |snaps| < 2 then None
    else
      SortedTop(JsonFiles(names));
      Some((snaps[|snaps| - 2], snaps[|snaps| - 1]))
  }

  /** The script: no diff with fewer than two snapshots, otherwise the changes from
      the older of the last two to the newer. */
  method Run(names: seq<string>, read: string -> seq<Entry>) returns (r: Option<seq<Change>>)
    ensures r.None? <==> LatestPair(names).None?
    ensures r.Some? ==> r.value == DiffOf(read(LatestPair(names).value.0), read(LatestPair(names).value.1))
  {
    var pair := LatestPair(names);
    if pair.None? {
      return None;
    }
    var changes := Diff(read(pair.value.0), read(pair.value.1));
    r := Some(changes);
  }
}
