/** The path functions of Python's `posixpath` and `ntpath` that the downloader uses. */
module Paths {
  import opened PyStr

  /** `posixpath.join(a, b)`: an absolute `b` replaces `a`; otherwise a separator is inserted
      unless `a` is empty or already ends in one. */
  function Join(a: string, b: string): string {
    if b != [] && b[0] == '/' then b
    else if a == [] || a[|a| - 1] == '/' then a + b
    else a + "/" + b
  }

  /** `posixpath.split(p)[-1]`: the text after the last '/'. */
  function Tail(p: string): (r: string)
    ensures '/' !in r
    ensures |r| <= |p| && forall k :: 0 <= k < |r| ==> r[k] == p[|p| - |r| + k]
    ensures |r| < |p| ==> p[|p| - |r| - 1] == '/'
  {
    if p == [] || p[|p| - 1] == '/' then [] else Tail(p[..|p| - 1]) + [p[|p| - 1]]
  }

  /** The last component is empty exactly when the path is empty or ends in '/'. */
  lemma TailEmpty(p: string)
    ensures Tail(p) == "" <==> p == "" || p[|p| - 1] == '/'
  {
    if p != "" && p[|p| - 1] != '/' {
      assert Tail(p)[|Tail(p)| - 1] == p[|p| - 1];
    }
  }

  /** `pathlib.PurePosixPath(p).name`: the last component once trailing slashes are
      dropped. */
  function PathName(p: string): (r: string)
    ensures '/' !in r
  {
    Tail(RStrip(p, Slash))
  }

  /** A non-empty name without '/' is the `name` of any path it is joined onto. */
  lemma PathNameOfJoin(dir: string, name: string)
    requires name != [] && '/' !in name
    ensures PathName(Join(dir, name)) == name
  {
    var p := Join(dir, name);
    assert p == (if dir == [] || dir[|dir| - 1] == '/' then dir + name else dir + "/" + name);
    assert p[|p| - 1] == name[|name| - 1];
    RStripDroppedSuffix(p, [], Slash);
    assert p + [] == p;
    TailOfJoin(dir, name);
  }

  predicate IsNtSep(c: char) { c == '/' || c == '\\' }

  /** `p` starts with ntpath's extended UNC prefix `\\?\UNC\`, either separator standing
      for '\\' and the letters in either case. */
  predicate IsUncPrefix(p: string) {
    && |p| >= 8 && IsNtSep(p[0]) && IsNtSep(p[1]) && p[2] == '?' && IsNtSep(p[3])
    && (p[4] == 'U' || p[4] == 'u') && (p[5] == 'N' || p[5] == 'n') && (p[6] == 'C' || p[6] == 'c')
    && IsNtSep(p[7])
  }

  /** `ntpath.splitroot` takes all of `p` as its drive: `p` starts with two separators, and
      fewer than two separators follow the server part (from index 2, or 8 after the
      extended UNC prefix). */
  predicate IsWholeDrive(p: string) {
    && |p| >= 2 && IsNtSep(p[0]) && IsNtSep(p[1])
    && var rest := p[if IsUncPrefix(p) then 8 else 2..];
       var i := IndexWhere(rest, NtSep);
       i == |rest| || IndexWhere(rest[i + 1..], NtSep) == |rest| - i - 1
  }

  /** `ntpath.basename(p)` (Python 3.12): the text after the last '/' or '\\' of what follows
      the drive. A drive letter (`C:`) is skipped; a UNC drive (`//server/share`) ends at a
      separator, so only a path that is all drive changes the result, which is then "". */
  function NtBasename(p: string): (r: string)
    ensures '/' !in r && '\\' !in r
  {
    if IsWholeDrive(p) then ""
    else
      var rest := if |p| >= 2 && !IsNtSep(p[0]) && p[1] == ':' then p[2..] else p;
      var i := LastIndexWhere(rest, NtSep);
      assert forall k :: i + 1 <= k < |rest| ==> !IsNtSep(rest[k]);
      rest[i + 1..]
  }

  /** `ntpath.basename(p)` is a suffix of `p`. */
  lemma NtBasenameIsSuffix(p: string)
    ensures var r := NtBasename(p); |r| <= |p| && r == p[|p| - |r|..]
  {
    if !IsWholeDrive(p) {
      var rest := if |p| >= 2 && !IsNtSep(p[0]) && p[1] == ':' then p[2..] else p;
      var i := LastIndexWhere(rest, NtSep);
      assert rest == p[|p| - |rest|..];
      assert rest[i + 1..] == p[|p| - |rest| + i + 1..];
    }
  }

  /** The last index satisfying `pred` is the one after which nothing does. */
  lemma LastIndexIs(p: string, pred: CharClass, k: int)
    requires -1 <= k < |p| && (k >= 0 ==> InClass(p[k], pred))
    requires forall j :: k < j < |p| ==> !InClass(p[j], pred)
    ensures LastIndexWhere(p, pred) == k
  {
  }

  /** A name without separators is the last component of any path it is joined onto. */
  lemma TailOfJoin(dir: string, name: string)
    requires '/' !in name
    ensures Tail(Join(dir, name)) == name
  {
    if dir == [] || dir[|dir| - 1] == '/' {
      TailAfterSlash(dir, name);
    } else {
      assert Join(dir, name) == (dir + "/") + name;
      TailAfterSlash(dir + "/", name);
    }
  }

  /** A character other than '/' added to a path is added to its last component. */
  lemma TailSnoc(p: string, c: char)
    requires c != '/'
    ensures Tail(p + [c]) == Tail(p) + [c]
  {
    assert (p + [c])[..|p|] == p;
  }

  /** What follows the last '/' of a path, or a whole path without one, is its last component. */
  lemma {:induction false} TailAfterSlash(q: string, name: string)
    requires q == [] || q[|q| - 1] == '/'
    requires '/' !in name
    ensures Tail(q + name) == name
  {
    if name == [] {
      assert q + name == q;
    } else {
      var init, last := name[..|name| - 1], name[|name| - 1];
      assert name == init + [last];
      assert q + name == (q + init) + [last];
      TailAfterSlash(q, init);
      TailSnoc(q + init, last);
    }
  }

  /** A path joined onto `dir` starts with two separators, so ntpath reads a UNC drive in it:
      `dir` starts with two, or is a lone '\\', which `posixpath.join` follows with '/'. */
  predicate HasUncStart(dir: string) {
    (|dir| >= 2 && IsNtSep(dir[0]) && IsNtSep(dir[1])) || dir == "\\"
  }

  /** A path that does not start with two separators has no UNC drive. */
  lemma NoUncDrive(p: string)
    requires |p| < 2 || !IsNtSep(p[0]) || !IsNtSep(p[1])
    ensures !IsWholeDrive(p)
  {
  }

  /** A path starting with two separators and holding at most one more is all drive. */
  lemma WholeDriveOfOneSep(p: string, k: int)
    requires |p| >= 2 && IsNtSep(p[0]) && IsNtSep(p[1])
    requires forall j :: 2 <= j < |p| && j != k ==> !IsNtSep(p[j])
    ensures IsWholeDrive(p)
  {
    assert !IsUncPrefix(p);
    var rest := p[2..];
    var i := IndexWhere(rest, NtSep);
    if i < |rest| {
      var tail := rest[i + 1..];
      assert forall j :: 0 <= j < |tail| ==> tail[j] == p[i + 3 + j];
      var t := IndexWhere(tail, NtSep);
      assert t < |tail| ==> IsNtSep(p[i + 3 + t]);
    }
  }

  /** Joining a non-empty name without separators onto a directory without a UNC start
      gives a path that does not start with two separators. */
  lemma JoinWithoutUncStart(dir: string, name: string)
    requires name != [] && '/' !in name && '\\' !in name && !HasUncStart(dir)
    ensures !IsWholeDrive(Join(dir, name))
  {
    var p := Join(dir, name);
    if dir == [] {
      assert p[0] == name[0];
    } else if |dir| == 1 && dir[0] == '/' {
      assert p[1] == name[0];
    } else if |dir| == 1 {
      assert p[0] == dir[0];
    } else {
      assert p[0] == dir[0] && p[1] == dir[1];
    }
    NoUncDrive(p);
  }

  /** The same for `ntpath.basename`, for a non-empty name with no separator and no ':',
      joined onto a directory without a UNC start. */
  lemma NtBasenameOfJoin(dir: string, name: string)
    requires name != [] && '/' !in name && '\\' !in name && ':' !in name
    requires !HasUncStart(dir)
    ensures NtBasename(Join(dir, name)) == name
  {
    var pre := if dir == [] || dir[|dir| - 1] == '/' then dir else dir + "/";
    assert Join(dir, name) == pre + name;
    JoinWithoutUncStart(dir, name);
    NtBasenameAfterSep(pre, name);
  }

  /** A non-empty name without separators or ':' after a separator (or alone) is the
      `ntpath.basename` of the path, unless the path is all drive. */
  lemma NtBasenameAfterSep(pre: string, name: string)
    requires name != [] && '/' !in name && '\\' !in name && ':' !in name
    requires pre == [] || IsNtSep(pre[|pre| - 1])
    requires !IsWholeDrive(pre + name)
    ensures NtBasename(pre + name) == name
  {
    var p := pre + name;
    var drive := |p| >= 2 && !IsNtSep(p[0]) && p[1] == ':';
    assert drive ==> |pre| >= 2;
    var off := if drive then 2 else 0;
    var lead := pre[off..];
    assert p[off..] == lead + name;
    LastAfterSep(lead, name);
    assert (lead + name)[|lead|..] == name;
  }

  /** In `lead + name`, with `lead` empty or ending in a separator and no separator in
      `name`, the last separator is the one ending `lead`. */
  lemma LastAfterSep(lead: string, name: string)
    requires lead == [] || IsNtSep(lead[|lead| - 1])
    requires '/' !in name && '\\' !in name
    ensures LastIndexWhere(lead + name, NtSep) == |lead| - 1
  {
    var q := lead + name;
    assert forall j :: |lead| <= j < |q| ==> q[j] == name[j - |lead|];
    LastIndexIs(q, NtSep, |lead| - 1);
  }

  /** On a bare UNC server (`//server`, no separator after the two leading ones) the joined
      path is all drive, and `ntpath.basename` of it is "". */
  lemma NtBasenameOnUncServer(dir: string, name: string)
    requires HasUncStart(dir)
    requires forall k :: 2 <= k < |dir| ==> !IsNtSep(dir[k])
    requires '/' !in name && '\\' !in name
    ensures NtBasename(Join(dir, name)) == ""
  {
    var p := Join(dir, name);
    var sep := if dir[|dir| - 1] == '/' then "" else "/";
    assert p == dir + sep + name;
    assert |dir| == 1 ==> sep == "/";
    var k := if sep == "/" then |dir| else -1;
    assert forall j :: |dir| + |sep| <= j < |p| ==> p[j] == name[j - |dir| - |sep|];
    assert forall j :: 2 <= j < |dir| ==> p[j] == dir[j];
    WholeDriveOfOneSep(p, k);
  }
}
