/** The log file records the manager shows (MavlinkLogFiles) and the
    functions over the ordered record list. */
module Records {

  /** One log file: a record whose flags the manager flips in place. */
  class LogFile {
    const name: string
    var size: nat
    var selected: bool
    var uploading: bool
    var progress: real
    var writing: bool
    var uploaded: bool

    /** Source lines 38-46 and 56 for a file being created: empty and
        with every flag clear. */
    constructor (name: string)
      ensures this.name == name && size == 0 && progress == 0.0
      ensures !selected && !uploading && !writing && !uploaded
    {
      this.name := name;
      size := 0;
      selected := false;
      uploading := false;
      progress := 0.0;
      writing := false;
      uploaded := false;
    }

    /** Source lines 38-56 for a file found on disk: its size, and uploaded
        exactly when its sidecar marker exists. */
    constructor Existing(name: string, size: nat, sidecarExists: bool)
      ensures this.name == name && this.size == size && progress == 0.0
      ensures !selected && !uploading && !writing
      ensures uploaded == sidecarExists
    {
      this.name := name;
      this.size := size;
      selected := false;
      uploading := false;
      progress := 0.0;
      writing := false;
      uploaded := sidecarExists;
    }

    /** Source lines 59-64. */
    method SetSize(n: nat)
      modifies this`size
      ensures size == n
    {
      size := n;
    }

    /** Source lines 67-73. */
    method SetSelected(b: bool)
      modifies this`selected
      ensures selected == b
    {
      selected := b;
    }

    /** Source lines 76-81. */
    method SetUploading(b: bool)
      modifies this`uploading
      ensures uploading == b
    {
      uploading := b;
    }

    /** Source lines 84-89. */
    method SetProgress(p: real)
      modifies this`progress
      ensures progress == p
    {
      progress := p;
    }

    /** Source lines 92-97. */
    method SetWriting(b: bool)
      modifies this`writing
      ensures writing == b
    {
      writing := b;
    }

    /** Source lines 100-105. */
    method SetUploaded(b: bool)
      modifies this`uploaded
      ensures uploaded == b
    {
      uploaded := b;
    }
  }

  /** The names of the records, in list order. */
  function Names(s: seq<LogFile>): (r: seq<string>)
    ensures |r| == |s| && forall i :: 0 <= i < |s| ==> r[i] == s[i].name
  {
    seq(|s|, i requires 0 <= i < |s| => s[i].name)
  }

  /** No record occurs twice in the list. */
  predicate Distinct(s: seq<LogFile>) {
    forall i, j :: 0 <= i < j < |s| ==> s[i] != s[j]
  }

  // ---------------------------------------------------------------------
  // Order on names (QString's operator<, code unit by code unit)

  /** Lexicographic order on names. */
  predicate Less(a: string, b: string) {
    if b == [] then false
    else if a == [] then true
    else if a[0] != b[0] then a[0] < b[0]
    else Less(a[1..], b[1..])
  }

  lemma {:induction false} LessIrreflexive(a: string)
    ensures !Less(a, a)
  {
    if a != [] {
      LessIrreflexive(a[1..]);
    }
  }

  lemma {:induction false} LessTransitive(a: string, b: string, c: string)
    requires Less(a, b) && Less(b, c)
    ensures Less(a, c)
  {
    if a != [] && b != [] && c != [] && a[0] == b[0] && b[0] == c[0] {
      LessTransitive(a[1..], b[1..], c[1..]);
    }
  }

  /** Any two different names are ordered one way or the other. */
  lemma {:induction false} LessTotal(a: string, b: string)
    requires a != b
    ensures Less(a, b) || Less(b, a)
  {
    if a != [] && b != [] && a[0] == b[0] {
      assert a == [a[0]] + a[1..] && b == [b[0]] + b[1..];
      LessTotal(a[1..], b[1..]);
    }
  }

  /** Names in ascending order (equal names may stand side by side). */
  predicate Sorted(names: seq<string>) {
    forall i, j :: 0 <= i < j < |names| ==> !Less(names[j], names[i])
  }

  // ---------------------------------------------------------------------
  // Sorted insertion (source lines 453-469)

  /** The index of the first name strictly greater than `n`, or the
      length of the list when there is none. */
  function InsertPos(names: seq<string>, n: string): (k: nat)
    ensures k <= |names|
    ensures forall i :: 0 <= i < k ==> !Less(n, names[i])
    ensures k < |names| ==> Less(n, names[k])
  {
    if names == [] then 0
    else if Less(n, names[0]) then 0
    else 1 + InsertPos(names[1..], n)
  }

  /** Inserting a name where the manager inserts a new record keeps an
      ascending list ascending, and the list grows by exactly that name. */
  lemma {:induction false} InsertKeepsSorted(names: seq<string>, n: string)
    requires Sorted(names)
    ensures var k := InsertPos(names, n);
            var r := names[..k] + [n] + names[k..];
            Sorted(r) && |r| == |names| + 1 && multiset(r) == multiset(names) + multiset{n}
  {
    var k := InsertPos(names, n);
    var r := names[..k] + [n] + names[k..];
    forall i, j | 0 <= i < j < |r|
      ensures !Less(r[j], r[i])
    {
      if j < k {
        assert r[i] == names[i] && r[j] == names[j];
      } else if j == k {
        assert r[i] == names[i] && r[j] == n;
      } else if i == k {
        assert r[i] == n && r[j] == names[j - 1];
        if Less(names[j - 1], n) {
          LessTransitive(names[j - 1], n, names[k]);
          if j - 1 == k {
            LessIrreflexive(names[k]);
          }
        }
      } else if i < k {
        assert r[i] == names[i] && r[j] == names[j - 1];
      } else {
        assert r[i] == names[i - 1] && r[j] == names[j - 1];
      }
    }
    calc {
      multiset(r);
      multiset(names[..k]) + multiset{n} + multiset(names[k..]);
      { assert names == names[..k] + names[k..]; }
      multiset(names) + multiset{n};
    }
  }

  /** Names of a list with one record spliced in at k. */
  lemma NamesSplice(s: seq<LogFile>, k: nat, r: LogFile)
    requires k <= |s|
    ensures Names(s[..k] + [r] + s[k..]) == Names(s)[..k] + [r.name] + Names(s)[k..]
  {
    var t := s[..k] + [r] + s[k..];
    var n := Names(s)[..k] + [r.name] + Names(s)[k..];
    assert |Names(t)| == |n|;
    forall i | 0 <= i < |n|
      ensures Names(t)[i] == n[i]
    {
      if i < k {
        assert t[i] == s[i] && n[i] == Names(s)[i];
      } else if i == k {
        assert t[i] == r && n[i] == r.name;
      } else {
        assert t[i] == s[i - 1] && n[i] == Names(s)[i - 1];
      }
    }
  }

  /** Splicing in a record that is not in the list keeps it free of
      repetitions. */
  lemma SpliceDistinct(s: seq<LogFile>, k: nat, r: LogFile)
    requires k <= |s| && Distinct(s) && r !in s
    ensures Distinct(s[..k] + [r] + s[k..])
  {
    var t := s[..k] + [r] + s[k..];
    assert forall i :: 0 <= i < |t| ==> t[i] == if i < k then s[i] else if i == k then r else s[i - 1];
    forall i, j | 0 <= i < j < |t|
      ensures t[i] != t[j]
    {
      if j == k || i == k {
      } else {
        var i' := if i < k then i else i - 1;
        var j' := if j < k then j else j - 1;
        assert t[i] == s[i'] && t[j] == s[j'] && i' < j';
      }
    }
  }

  // ---------------------------------------------------------------------
  // Selections (source lines 473-497)

  /** The index of the first selected record, or -1 when none is. */
  function FirstSelected(s: seq<LogFile>): (k: int)
    reads s`selected
    ensures -1 <= k < |s|
    ensures k >= 0 ==> s[k].selected
    ensures forall i :: 0 <= i < |s| && (k < 0 || i < k) ==> !s[i].selected
  {
    if s == [] then -1
    else if s[0].selected then 0
    else
      var k := FirstSelected(s[1..]);
      if k < 0 then -1 else k + 1
  }

  /** The records that are not selected, in list order. */
  function Unselected(s: seq<LogFile>): seq<LogFile>
    reads s`selected
  {
    if s == [] then []
    else if s[0].selected then Unselected(s[1..])
    else [s[0]] + Unselected(s[1..])
  }

  /** The unselected records are exactly the records of the list that are
      not selected: nothing selected is kept and nothing unselected is lost. */
  lemma {:induction false} UnselectedMembers(s: seq<LogFile>)
    ensures forall r :: r in Unselected(s) <==> r in s && !r.selected
  {
    if s != [] {
      UnselectedMembers(s[1..]);
      assert s == [s[0]] + s[1..];
    }
  }

  /** Removing a selected record that only unselected records precede
      leaves the unselected records as they were. */
  lemma {:induction false} UnselectedSkipsFirst(s: seq<LogFile>, k: nat)
    requires k < |s| && s[k].selected
    requires forall i :: 0 <= i < k ==> !s[i].selected
    ensures Unselected(s[..k] + s[k + 1..]) == Unselected(s)
  {
    if k > 0 {
      assert s[1..][..k - 1] + s[1..][k..] == (s[..k] + s[k + 1..])[1..];
      UnselectedSkipsFirst(s[1..], k - 1);
    } else {
      assert s[..k] + s[k + 1..] == s[1..];
    }
  }

  /** When nothing is selected, every record is kept. */
  lemma {:induction false} UnselectedAll(s: seq<LogFile>)
    requires forall i :: 0 <= i < |s| ==> !s[i].selected
    ensures Unselected(s) == s
  {
    if s != [] {
      UnselectedAll(s[1..]);
    }
  }

  /** Unselected keeps list order (it is a subsequence) and keeps records
      apart. */
  lemma {:induction false} UnselectedDistinct(s: seq<LogFile>)
    requires Distinct(s)
    ensures Distinct(Unselected(s))
  {
    if s != [] {
      UnselectedDistinct(s[1..]);
      UnselectedMembers(s[1..]);
      assert s[0] !in s[1..];
    }
  }

  /** The records that are selected, in list order. */
  function Selected(s: seq<LogFile>): seq<LogFile>
    reads s`selected
  {
    if s == [] then []
    else if s[0].selected then [s[0]] + Selected(s[1..])
    else Selected(s[1..])
  }

  /** Removing the first selected record takes it off the front of the
      selected records. */
  lemma {:induction false} SelectedSkipsFirst(s: seq<LogFile>, k: nat)
    requires k < |s| && s[k].selected
    requires forall i :: 0 <= i < k ==> !s[i].selected
    ensures Selected(s) == [s[k]] + Selected(s[..k] + s[k + 1..])
  {
    if k > 0 {
      assert s[1..][..k - 1] + s[1..][k..] == (s[..k] + s[k + 1..])[1..];
      SelectedSkipsFirst(s[1..], k - 1);
    } else {
      assert s[..k] + s[k + 1..] == s[1..];
    }
  }

  /** One round of the deletion loop: removing the first selected record
      from a list without repetitions shortens it by one, keeps it without
      repetitions, keeps the unselected records and takes the first
      selected one off the selected records. */
  lemma RemoveFirstSelected(s: seq<LogFile>, k: int)
    requires Distinct(s) && k == FirstSelected(s) && k >= 0
    ensures var t := RemoveOne(s, s[k]);
            && |t| == |s| - 1 && Distinct(t)
            && Unselected(t) == Unselected(s)
            && Selected(s) == [s[k]] + Selected(t)
  {
    RemoveOneAt(s, k);
    RemoveOneMembers(s, s[k]);
    UnselectedSkipsFirst(s, k);
    SelectedSkipsFirst(s, k);
  }

  /** When nothing is selected, no record is selected. */
  lemma {:induction false} SelectedNone(s: seq<LogFile>)
    requires forall i :: 0 <= i < |s| ==> !s[i].selected
    ensures Selected(s) == []
  {
    if s != [] {
      SelectedNone(s[1..]);
    }
  }

  // ---------------------------------------------------------------------
  // Removal of one record (QList::removeOne, source line 515)

  /** The list without the first occurrence of `r`. */
  function RemoveOne(s: seq<LogFile>, r: LogFile): seq<LogFile>
  {
    if s == [] then []
    else if s[0] == r then s[1..]
    else [s[0]] + RemoveOne(s[1..], r)
  }

  /** In a list without repetitions, removing the record at index k leaves
      everything before and after it in place. */
  lemma {:induction false} RemoveOneAt(s: seq<LogFile>, k: nat)
    requires Distinct(s) && k < |s|
    ensures RemoveOne(s, s[k]) == s[..k] + s[k + 1..]
  {
    if k > 0 {
      assert s[0] != s[k];
      assert Distinct(s[1..]);
      RemoveOneAt(s[1..], k - 1);
      assert s[1..][..k - 1] + s[1..][k..] == (s[..k] + s[k + 1..])[1..];
    }
  }

  /** Removing a record that is not in the list changes nothing. */
  lemma {:induction false} RemoveOneAbsent(s: seq<LogFile>, r: LogFile)
    requires r !in s
    ensures RemoveOne(s, r) == s
  {
    if s != [] {
      RemoveOneAbsent(s[1..], r);
    }
  }

  /** Removing a record keeps the others apart and drops only that record. */
  lemma {:induction false} RemoveOneMembers(s: seq<LogFile>, r: LogFile)
    requires Distinct(s)
    ensures Distinct(RemoveOne(s, r))
    ensures forall x :: x in RemoveOne(s, r) <==> x in s && x != r
  {
    if s != [] {
      assert Distinct(s[1..]);
      RemoveOneMembers(s[1..], r);
      if s[0] == r {
        assert forall x :: x in s[1..] ==> x != r;
      } else {
        assert s[0] !in s[1..];
      }
      assert s == [s[0]] + s[1..];
    }
  }

  /** Index of a record in the list (|s| when absent). */
  function IndexOf(s: seq<LogFile>, r: LogFile): (k: nat)
    ensures k <= |s|
    ensures k < |s| ==> s[k] == r
    ensures forall i :: 0 <= i < k ==> s[i] != r
  {
    if s == [] then 0
    else if s[0] == r then 0
    else 1 + IndexOf(s[1..], r)
  }
}
