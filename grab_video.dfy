/**
  The `grabVideo` class: the `.jpg` files of a folder in natural order, handed
  out one path per call. The directory listing and the natural sort are
  parameters; a path is the pair that `os.path.join` is given.
 */
module VideoFrames {
  import opened PyArith

  /** `os.path.join(folder, name)`. */
  datatype Path = Join(folder: string, name: string)

  /** What `getNextFile` yields: a path, or the `IndexError` of `self.files[self.idx]`. */
  datatype Fetched = Found(path: Path) | IndexError

  /** Python's `str.endswith`: case-sensitive, on the characters as given. */
  predicate EndsWith(s: string, suffix: string) {
    |suffix| <= |s| && s[|s| - |suffix|..] == suffix
  }

  /** A name ends in `suffix` exactly when it is some prefix followed by `suffix`. */
  lemma EndsWithConcat(s: string, suffix: string)
    ensures EndsWith(s, suffix) <==> exists p :: s == p + suffix
  {
    if EndsWith(s, suffix) {
      var p := s[..|s| - |suffix|];
      assert s == p + suffix;
    }
    if exists p :: s == p + suffix {
      var p :| s == p + suffix;
      assert s[|s| - |suffix|..] == suffix;
    }
  }

  /** The names the constructor keeps, in listing order. */
  function JpgNames(names: seq<string>): (r: seq<string>)
    ensures |r| <= |names|
  {
    if |names| == 0 then []
    else
      var last := names[|names| - 1];
      JpgNames(names[..|names| - 1]) + (if EndsWith(last, ".jpg") then [last] else [])
  }

  /** Every name ending in `.jpg` is kept as often as it is listed, and no other name is kept. */
  lemma {:induction false} JpgNamesCount(names: seq<string>, f: string)
    ensures multiset(JpgNames(names))[f] == if EndsWith(f, ".jpg") then multiset(names)[f] else 0
  {
    if |names| > 0 {
      var init, last := names[..|names| - 1], names[|names| - 1];
      JpgNamesCount(init, f);
      assert names == init + [last];
      assert multiset(names) == multiset(init) + multiset([last]);
    }
  }

  /** A name is kept exactly when it is listed and ends in `.jpg`. */
  lemma JpgNamesMembers(names: seq<string>, f: string)
    ensures f in JpgNames(names) <==> f in names && EndsWith(f, ".jpg")
  {
    JpgNamesCount(names, f);
    assert f in JpgNames(names) <==> multiset(JpgNames(names))[f] > 0;
    assert f in names <==> multiset(names)[f] > 0;
  }

  /** Upper case and other extensions are not matched. */
  lemma JpgNamesExample()
    ensures JpgNames(["2.jpg", "1.JPG", "3.jpeg", "10.jpg"]) == ["2.jpg", "10.jpg"]
  {
    assert !EndsWith("1.JPG", ".jpg") by { assert "1.JPG"[1..] != ".jpg"; }
    assert !EndsWith("3.jpeg", ".jpg") by { assert "3.jpeg"[2..] != ".jpg"; }
    assert EndsWith("2.jpg", ".jpg") by { assert "2.jpg"[1..] == ".jpg"; }
    assert EndsWith("10.jpg", ".jpg") by { assert "10.jpg"[2..] == ".jpg"; }
    assert ["2.jpg", "1.JPG", "3.jpeg", "10.jpg"][..3] == ["2.jpg", "1.JPG", "3.jpeg"];
    assert ["2.jpg", "1.JPG", "3.jpeg"][..2] == ["2.jpg", "1.JPG"];
    assert ["2.jpg", "1.JPG"][..1] == ["2.jpg"];
    assert ["2.jpg"][..0] == [];
  }

  // ---------------------------------------------------------------------------
  // The index, as written

  /** The index after one call with `n` files: one further, back to 0 once it passes `n`. */
  function NextIndex(idx: nat, n: nat): (r: nat)
    ensures r <= n
    ensures idx <= n ==> r == (idx + 1) % (n + 1)
  {
    if idx + 1 > n then 0 else idx + 1
  }

  /** The file at `idx`, or `IndexError` when the index is past the end. */
  function Fetch(folder: string, files: seq<string>, idx: nat): Fetched {
    if idx < |files| then Found(Join(folder, files[idx])) else IndexError
  }

  /** The index after `k` calls on a freshly constructed object with `n` files. */
  function IndexAfter(n: nat, k: nat): nat {
    if k == 0 then 0 else NextIndex(IndexAfter(n, k - 1), n)
  }

  /** The index runs through `0 .. n` cyclically: `n + 1` positions for `n` files. */
  lemma {:induction false} IndexAfterCycle(n: nat, k: nat)
    ensures IndexAfter(n, k) == k % (n + 1)
  {
    if k > 0 {
      IndexAfterCycle(n, k - 1);
      StepMod(k, n + 1);
    }
  }

  /** One step round a cycle of length `m`. */
  lemma StepMod(k: nat, m: nat)
    requires k >= 1 && m >= 1
    ensures ((k - 1) % m + 1) % m == k % m
  {
    var q, r := (k - 1) / m, (k - 1) % m;
    assert k == m * q + (r + 1);
    if r + 1 == m {
      assert m * (q + 1) == m * q + m;
      DivModUnique(k, m, q + 1, 0);
      DivModUnique(r + 1, m, 1, 0);
    } else {
      DivModUnique(k, m, q, r + 1);
      DivModUnique(r + 1, m, 0, r + 1);
    }
  }

  /** Call `k` (counting from 1) raises `IndexError` exactly when it lands on position `n`. */
  lemma CallFails(folder: string, files: seq<string>, k: nat)
    requires k >= 1
    ensures Fetch(folder, files, IndexAfter(|files|, k)) == IndexError <==> k % (|files| + 1) == |files|
  {
    IndexAfterCycle(|files|, k);
  }

  /** Within each cycle of `n + 1` calls, file `j` is returned by the call at position `j` of the cycle. */
  lemma CallServes(folder: string, files: seq<string>, k: nat, j: nat)
    requires k >= 1 && j < |files| && k % (|files| + 1) == j
    ensures Fetch(folder, files, IndexAfter(|files|, k)) == Found(Join(folder, files[j]))
  {
    IndexAfterCycle(|files|, k);
  }

  /** The first call returns the second file, and fails when there is only one. */
  lemma FirstCall(folder: string, files: seq<string>)
    ensures |files| >= 2 ==> Fetch(folder, files, IndexAfter(|files|, 1)) == Found(Join(folder, files[1]))
    ensures |files| <= 1 ==> Fetch(folder, files, IndexAfter(|files|, 1)) == IndexError
  {
  }

  /** With two files the second call indexes one past the end. */
  lemma AsWrittenFailsAtEnd(folder: string, files: seq<string>)
    requires |files| == 2
    ensures Fetch(folder, files, IndexAfter(2, 2)) == IndexError
  {
    CallFails(folder, files, 2);
  }

  // ---------------------------------------------------------------------------
  // The index, as intended: it wraps before it leaves the list

  /** The index after one call, back to 0 once it reaches `n`. */
  function NextIndexLooping(idx: nat, n: nat): (r: nat)
    ensures n >= 1 ==> r < n
    ensures idx < n ==> r == (idx + 1) % n
  {
    if idx + 1 >= n then 0 else idx + 1
  }

  /** The intended index after `k` calls on a freshly constructed object with `n` files. */
  function IndexAfterLooping(n: nat, k: nat): nat {
    if k == 0 then 0 else NextIndexLooping(IndexAfterLooping(n, k - 1), n)
  }

  /** The intended index cycles through the `n` files. */
  lemma {:induction false} IndexAfterLoopingCycle(n: nat, k: nat)
    requires n >= 1
    ensures IndexAfterLooping(n, k) == k % n
  {
    if k > 0 {
      IndexAfterLoopingCycle(n, k - 1);
      StepMod(k, n);
    }
  }

  /** The intended index never fails on a non-empty folder: call `k` returns file `k mod n`. */
  lemma LoopingServes(folder: string, files: seq<string>, k: nat)
    requires |files| >= 1
    ensures Fetch(folder, files, IndexAfterLooping(|files|, k)) == Found(Join(folder, files[k % |files|]))
  {
    IndexAfterLoopingCycle(|files|, k);
  }

  // ---------------------------------------------------------------------------
  // The class

  class GrabVideo {
    var folder: string
    var files: seq<string>
    var idx: nat

    /** The index never passes one beyond the last file. */
    ghost predicate Valid()
      reads this
    {
      idx <= |files|
    }

    /**
      Lists `listing` (the folder's `os.listdir`), keeps the names ending in
      `.jpg` and sorts them with `natsort`, which only reorders its argument.
     */
    constructor (path: string, listing: seq<string>, natsort: seq<string> -> seq<string>)
      requires multiset(natsort(JpgNames(listing))) == multiset(JpgNames(listing))
      ensures Valid()
      ensures folder == path && idx == 0
      ensures files == natsort(JpgNames(listing)) && multiset(files) == multiset(JpgNames(listing))
    {
      folder := path;
      files := [];
      new;
      for k := 0 to |listing|
        invariant folder == path && files == JpgNames(listing[..k])
      {
        assert listing[..k + 1][..k] == listing[..k];
        if EndsWith(listing[k], ".jpg") {
          files := files + [listing[k]];
        }
      }
      assert listing[..|listing|] == listing;
      files := natsort(files);
      idx := 0;
    }

    /**
      Moves the index on and returns the file there. The index is updated even
      when the lookup raises `IndexError`.
     */
    method GetNextFile() returns (r: Fetched)
      modifies this`idx
      ensures Valid()
      ensures idx == NextIndex(old(idx), |files|)
      ensures r == Fetch(folder, files, idx)
    {
      idx := idx + 1;
      if idx > |files| {
        idx := 0;
      }
      if idx < |files| {
        r := Found(Join(folder, files[idx]));
      } else {
        r := IndexError;
      }
    }

    /** `getNextFile` with the wrap-around test `>=` in place of `>`. */
    method GetNextFileLooping() returns (r: Fetched)
      modifies this`idx
      ensures idx == NextIndexLooping(old(idx), |files|)
      ensures |files| >= 1 ==> Valid() && idx < |files| && r == Found(Join(folder, files[idx]))
      ensures |files| == 0 ==> r == IndexError
    {
      idx := idx + 1;
      if idx >= |files| {
        idx := 0;
      }
      if idx < |files| {
        r := Found(Join(folder, files[idx]));
      } else {
        r := IndexError;
      }
    }
  }
}
