/** What names lead to, before and after each operation on the tree of files and directories. */
module Lookups {
  import opened Bytes
  import opened BlockMap
  import opened Directories

  /** The inodes that answer to a name in a directory, in the order of their entries; parse_path takes the first. */
  function Answers(ds: seq<Dentry>, name: seq<Byte>): seq<nat> {
    if ds == [] || ds[0].inum == 0 then [] else
    (if ds[0].valid && ds[0].name == name then [ds[0].inum] else []) + Answers(ds[1..], name)
  }

  function Here(t: Tree, name: seq<Byte>): seq<nat>
    requires t.cwd in t.dirs
  {
    Answers(t.dirs[t.cwd], name)
  }

  predicate ValidUsed(ds: seq<Dentry>) {
    forall i | 0 <= i < |ds| && ds[i].valid :: ds[i].inum != 0
  }

  lemma {:induction false} FindIsFirst(ds: seq<Dentry>, name: seq<Byte>, j: nat)
    requires j <= |ds| && ValidUsed(ds)
    ensures var k, a := Find(ds, name, j), Answers(ds[j..], name);
            if k < |ds| then a != [] && a[0] == ds[k].inum != 0 else a == []
    decreases |ds| - j
  {
    if j < |ds| {
      assert ds[j..][0] == ds[j] && ds[j..][1..] == ds[j + 1..];
      if !(ds[j].valid && ds[j].name == name) && ds[j].inum != 0 {
        FindIsFirst(ds, name, j + 1);
      }
    }
  }

  lemma UsedInTree(t: Tree)
    requires TreeOk(t)
    ensures t.cwd in t.dirs && |t.dirs[t.cwd]| == NSLOTS && Dense(t.dirs[t.cwd]) && ValidUsed(t.dirs[t.cwd])
  {
    var ds := t.dirs[t.cwd];
    forall i | 0 <= i < |ds| && ds[i].valid
      ensures ds[i].inum != 0
    {
      assert Names(t, t.cwd, i, ds[i].inum);
    }
  }

  /** parse_path finds the first inode that answers, and 0 when none does. */
  lemma ParseIs(t: Tree, name: seq<Byte>)
    requires TreeOk(t) && name != []
    ensures Parse(t, name) == if Here(t, name) == [] then 0 else Here(t, name)[0]
    ensures Here(t, name) == [] <==> Parse(t, name) == 0
    ensures Find(t.dirs[t.cwd], name, 0) < |t.dirs[t.cwd]| <==> Here(t, name) != []
  {
    UsedInTree(t);
    var ds := t.dirs[t.cwd];
    FindIsFirst(ds, name, 0);
    assert ds[0..] == ds;
  }

  /** An entry in the first unused slot answers last. */
  lemma {:induction false} AnswersAdded(ds: seq<Dentry>, e: Dentry, x: seq<Byte>)
    requires Dense(ds) && EmptyAt(ds, 0) < |ds| && e.valid && e.inum != 0
    ensures Answers(ds[EmptyAt(ds, 0) := e], x) == Answers(ds, x) + if e.name == x then [e.inum] else []
  {
    var k := EmptyAt(ds, 0);
    var ds' := ds[k := e];
    if k == 0 {
      assert ds'[1..] == ds[1..] && (|ds| > 1 ==> ds[1].inum == 0);
      assert Answers(ds[1..], x) == [];
    } else {
      EmptyAfter(ds, 1);
      assert ds'[1..] == ds[1..][k - 1 := e];
      AnswersAdded(ds[1..], e, x);
    }
  }

  lemma {:induction false} EmptyAfter(ds: seq<Dentry>, j: nat)
    requires 0 < j <= |ds|
    ensures EmptyAt(ds[1..], j - 1) == EmptyAt(ds, j) - 1
    decreases |ds| - j
  {
    if j < |ds| && ds[j].inum != 0 {
      EmptyAfter(ds, j + 1);
    }
  }

  lemma {:induction false} FindAfter(ds: seq<Dentry>, name: seq<Byte>, j: nat)
    requires 0 < j <= |ds|
    ensures Find(ds[1..], name, j - 1) == Find(ds, name, j) - 1
    decreases |ds| - j
  {
    if j < |ds| && !(ds[j].valid && ds[j].name == name) && ds[j].inum != 0 {
      FindAfter(ds, name, j + 1);
    }
  }

  /** An entry that is found and made invalid was the first to answer, and answers no more. */
  lemma {:induction false} AnswersRemoved(ds: seq<Dentry>, name: seq<Byte>, x: seq<Byte>)
    requires Find(ds, name, 0) < |ds| && ValidUsed(ds)
    ensures var k := Find(ds, name, 0);
            var a := Answers(ds, x);
            (x == name ==> a != []) && Answers(ds[k := ds[k].(valid := false)], x) == if x == name then a[1..] else a
  {
    var k := Find(ds, name, 0);
    var ds' := ds[k := ds[k].(valid := false)];
    if k == 0 {
      assert ds'[1..] == ds[1..];
    } else {
      FindAfter(ds, name, 1);
      assert ds'[1..] == ds[1..][k - 1 := ds[k].(valid := false)];
      AnswersRemoved(ds[1..], name, x);
      if ds[0].valid && ds[0].name == x {
        assert x != name;
      } else {
        assert [] + Answers(ds[1..], x) == Answers(ds[1..], x);
      }
    }
  }

  // ---------------------------------------------------------------- the operations

  /** The current directory and all directories but it stay; every name but this one leads where it led. */
  ghost predicate OnlyName(t: Tree, t': Tree, name: seq<Byte>) {
    && t.cwd in t.dirs && t'.cwd == t.cwd && t'.cwd in t'.dirs
    && (forall d | d in t.dirs && d != t.cwd :: d in t'.dirs && t'.dirs[d] == t.dirs[d])
    && (forall x | x != name :: Here(t', x) == Here(t, x) && Parse(t', x) == Parse(t, x))
  }

  /** A new entry in the first unused slot. */
  lemma EntryAnswers(t: Tree, t': Tree, n: nat, name: seq<Byte>)
    requires TreeOk(t) && TreeOk(t') && t'.cwd == t.cwd && n != 0 && EmptyAt(t.dirs[t.cwd], 0) < |t.dirs[t.cwd]|
    requires t'.dirs[t.cwd] == t.dirs[t.cwd][EmptyAt(t.dirs[t.cwd], 0) := Dentry(true, n, name)]
    requires forall d | d in t.dirs && d != t.cwd :: d in t'.dirs && t'.dirs[d] == t.dirs[d]
    ensures OnlyName(t, t', name) && Here(t', name) == Here(t, name) + [n]
    ensures name != [] ==> Parse(t', name) == if Parse(t, name) == 0 then n else Parse(t, name)
  {
    hide TreeOk, Find, EmptyAt, Answers, Parse;
    UsedInTree(t);
    NoName(t);
    NoName(t');
    forall x
      ensures Here(t', x) == Here(t, x) + if x == name then [n] else []
      ensures x != [] && x != name ==> Parse(t', x) == Parse(t, x)
      ensures x != [] && x == name ==> Parse(t', x) == if Parse(t, name) == 0 then n else Parse(t, x)
    {
      AnswersAdded(t.dirs[t.cwd], Dentry(true, n, name), x);
      if x != [] {
        ParseIs(t, x);
        ParseIs(t', x);
      }
    }
  }

  /** The empty path is the current directory. */
  lemma NoName(t: Tree)
    requires TreeOk(t)
    ensures t.cwd in t.dirs && Parse(t, []) == t.cwd
  {
  }

  /** do_touch: a name that led nowhere leads to an empty file that was not there; nothing else changes. */
  lemma TouchMakes(t: Tree, name: seq<Byte>)
    requires TreeOk(t) && Allowed(t, Touch(name)) && name != []
    ensures var t' := Step(t, Touch(name));
            if |name| > DENTRY_NAME_LEN || Parse(t, name) != 0 then t' == t else
            var n := Parse(t', name);
            && OnlyName(t, t', name) && n != 0 && !IsLive(t, n) && t'.dirs.Keys == t.dirs.Keys
            && t'.files == t.files[n := FileNode(1, 0, map[])]
  {
    hide TreeOk, Find, EmptyAt, Fresh;
    NoName(t);
    ParseIs(t, name);
    if !Refused(t, name) {
      StepOk(t, Touch(name));
      EntryAnswers(t, Step(t, Touch(name)), Fresh(t, 1), name);
    }
  }

  /** do_ln: the new name leads where the old one leads, the file has one more link; nothing else changes. */
  lemma LnLinks(t: Tree, src: seq<Byte>, dst: seq<Byte>)
    requires TreeOk(t) && Allowed(t, Ln(src, dst)) && dst != []
    ensures var t', n := Step(t, Ln(src, dst)), Parse(t, src);
            if src == dst then t' == t else
            && OnlyName(t, t', dst) && t'.dirs.Keys == t.dirs.Keys
            && Parse(t', dst) == (if Parse(t, dst) == 0 then n else Parse(t, dst)) && Here(t', dst) == Here(t, dst) + [n]
            && t'.files == t.files[n := t.files[n].(refs := t.files[n].refs + 1)]
  {
    hide TreeOk, Find, EmptyAt;
    NoName(t);
    if src != dst {
      StepOk(t, Ln(src, dst));
      FileNumber(t, Parse(t, src));
      EntryAnswers(t, Step(t, Ln(src, dst)), Parse(t, src), dst);
    }
  }

  lemma FileNumber(t: Tree, n: nat)
    requires TreeOk(t) && n in t.files
    ensures n != 0 && n !in t.dirs
  {
    assert IsLive(t, n);
  }

  /**
   do_mkdir: a name that led nowhere leads to a directory that was not there, in which "." leads to itself,
   ".." to where it was made, and nothing else anywhere; nothing else changes.
   */
  lemma MkdirMakes(t: Tree, name: seq<Byte>)
    requires TreeOk(t) && Allowed(t, Mkdir(name)) && name != []
    ensures var t' := Step(t, Mkdir(name));
            if |name| > DENTRY_NAME_LEN || Parse(t, name) != 0 then t' == t else
            var n := Parse(t', name);
            && OnlyName(t, t', name) && n != 0 && !IsLive(t, n) && t'.files == t.files && t'.dirs.Keys == t.dirs.Keys + {n}
            && Answers(t'.dirs[n], [46]) == [n] && Answers(t'.dirs[n], [46, 46]) == [t.cwd]
            && forall x | x != [46] && x != [46, 46] :: Answers(t'.dirs[n], x) == []
  {
    hide TreeOk, Find, EmptyAt, Fresh;
    NoName(t);
    ParseIs(t, name);
    if !Refused(t, name) {
      StepOk(t, Mkdir(name));
      EntryAnswers(t, Step(t, Mkdir(name)), Fresh(t, 1), name);
      CwdNumber(t);
      forall x
        ensures Answers(NewDirectory(Fresh(t, 1), t.cwd), x)
                == if x == [46] then [Fresh(t, 1)] else if x == [46, 46] then [t.cwd] else []
      {
        NewDirectoryAnswers(Fresh(t, 1), t.cwd, x);
      }
    }
  }

  lemma CwdNumber(t: Tree)
    requires TreeOk(t)
    ensures t.cwd != 0
  {
    assert IsLive(t, t.cwd);
  }

  lemma NewDirectoryAnswers(n: nat, parent: nat, x: seq<Byte>)
    requires n != 0 && parent != 0
    ensures Answers(NewDirectory(n, parent), x) == if x == [46] then [n] else if x == [46, 46] then [parent] else []
  {
    var ds := NewDirectory(n, parent);
    assert Answers(ds[1..][1..], x) == [];
  }

  /** do_rm of a file: its first entry of that name answers no more; the file loses a link or is gone with the last. */
  lemma RmRemoves(t: Tree, name: seq<Byte>)
    requires TreeOk(t) && Allowed(t, Rm(name))
    ensures var t', n := Step(t, Rm(name)), Parse(t, name);
            if n !in t.files then t' == t else
            && OnlyName(t, t', name) && t'.dirs.Keys == t.dirs.Keys
            && Here(t, name) != [] && Here(t', name) == Here(t, name)[1..]
            && Parse(t', name) == (if |Here(t, name)| == 1 then 0 else Here(t, name)[1])
            && t'.files == (if t.files[n].refs > 1 then t.files[n := t.files[n].(refs := t.files[n].refs - 1)] else t.files - {n})
  {
    hide TreeOk, Find, EmptyAt;
    NoName(t);
    var t' := Step(t, Rm(name));
    if name == [] {
      CwdIsNoFile(t);
    } else {
      ParseIs(t, name);
      CwdIsNoFile(t);
      ZeroIsNoFile(t);
      if Parse(t, name) in t.files {
        StepOk(t, Rm(name));
        UsedInTree(t);
        NoName(t');
        forall x
          ensures Here(t', x) == if x == name then Here(t, x)[1..] else Here(t, x)
          ensures x != [] ==> Parse(t', x) == if Here(t', x) == [] then 0 else Here(t', x)[0]
          ensures x != [] && x != name ==> Parse(t', x) == Parse(t, x)
        {
          AnswersRemoved(t.dirs[t.cwd], name, x);
          if x != [] {
            ParseIs(t, x);
            ParseIs(t', x);
          }
        }
      }
    }
  }

  lemma CwdIsNoFile(t: Tree)
    requires TreeOk(t)
    ensures t.cwd !in t.files
  {
  }

  lemma ZeroIsNoFile(t: Tree)
    requires TreeOk(t)
    ensures 0 !in t.files && 0 !in t.dirs
  {
    assert IsLive(t, 0) ==> IsInum(0);
  }

  /** do_fwrite: exactly the bytes written change, of that file; names and links stay. */
  lemma WriteChanges(t: Tree, name: seq<Byte>, offset: nat, data: seq<Byte>)
    requires TreeOk(t) && Allowed(t, Write(name, offset, data))
    ensures var t', n := Step(t, Write(name, offset, data)), Parse(t, name);
            && t'.dirs == t.dirs && t'.cwd == t.cwd && t'.files.Keys == t.files.Keys
            && forall m, x: nat | m in t.files ::
                 && t'.files[m].refs == t.files[m].refs
                 && t.files[m].size <= t'.files[m].size && (m == n ==> offset + |data| <= t'.files[m].size)
                 && (t'.files[m].size == t.files[m].size || (m == n && t'.files[m].size == offset + |data|))
                 && ByteAt(t'.files[m].bytes, x) ==
                    if m == n && offset <= x < offset + |data| then data[x - offset] else ByteAt(t.files[m].bytes, x)
  {
    hide TreeOk, Overwritten, ByteAt;
    NoName(t);
    var n := Parse(t, name);
    forall x: nat
      ensures ByteAt(Overwritten(t.files[n].bytes, offset, data), x)
              == if offset <= x < offset + |data| then data[x - offset] else ByteAt(t.files[n].bytes, x)
    {
      OverwrittenAt(t.files[n].bytes, offset, data, x);
    }
  }

  /** do_cd changes where names are looked up, to the directory that the name leads to, and nothing else. */
  lemma CdMoves(t: Tree, name: seq<Byte>)
    requires TreeOk(t) && Allowed(t, Cd(name))
    ensures var t', n := Step(t, Cd(name)), Parse(t, name);
            && t'.dirs == t.dirs && t'.files == t.files && t'.cwd == (if n in t.dirs then n else t.cwd)
            && TreeOk(t')
            && forall x | x != [] && n in t.dirs :: Parse(t', x) == if Answers(t.dirs[n], x) == [] then 0 else Answers(t.dirs[n], x)[0]
  {
    hide TreeOk, Find;
    NoName(t);
    var t' := Step(t, Cd(name));
    StepOk(t, Cd(name));
    forall x | x != [] && Parse(t, name) in t.dirs
      ensures Parse(t', x) == if Answers(t.dirs[t'.cwd], x) == [] then 0 else Answers(t.dirs[t'.cwd], x)[0]
    {
      ParseIs(t', x);
    }
  }

  // ---------------------------------------------------------------- over every run

  /** "." of the directory d leads to d, and ".." to the directory parent. */
  ghost predicate DotsLead(t: Tree, d: nat, parent: nat) {
    && d in t.dirs && parent in t.dirs
    && var dot, up := Answers(t.dirs[d], [46]), Answers(t.dirs[d], [46, 46]);
       dot != [] && dot[0] == d && up != [] && up[0] == parent
  }

  /** Names that answer later than what answers now change nothing about "." and "..". */
  lemma DotsKept(t: Tree, t': Tree, name: seq<Byte>, n: nat, d: nat, parent: nat)
    requires DotsLead(t, d, parent) && OnlyName(t, t', name) && Here(t', name) == Here(t, name) + [n]
    requires parent in t'.dirs
    ensures DotsLead(t', d, parent)
  {
    hide Answers, Parse;
    if d == t.cwd {
      assert Here(t', [46]) == Here(t, [46]) + if name == [46] then [n] else [];
      assert Here(t', [46, 46]) == Here(t, [46, 46]) + if name == [46, 46] then [n] else [];
    }
  }

  /** A removed entry is a file's, and was not the one that "." or ".." leads by. */
  lemma DotsSpared(t: Tree, t': Tree, name: seq<Byte>, d: nat, parent: nat)
    requires TreeOk(t) && DotsLead(t, d, parent) && OnlyName(t, t', name) && name != [] && Parse(t, name) in t.files
    requires parent in t'.dirs
    ensures DotsLead(t', d, parent)
  {
    hide Answers, Parse;
    FileNumber(t, Parse(t, name));
    if d == t.cwd {
      ParseIs(t, name);
      assert name != [46] && name != [46, 46];
      assert Here(t', [46]) == Here(t, [46]) && Here(t', [46, 46]) == Here(t, [46, 46]);
    }
  }

  /** No operation, whatever names it is given, changes where "." and ".." of a directory lead. */
  lemma DotsStay(t: Tree, op: Op, d: nat, parent: nat)
    requires TreeOk(t) && Allowed(t, op) && DotsLead(t, d, parent)
    ensures DotsLead(Step(t, op), d, parent)
  {
    hide TreeOk, Find, EmptyAt, Answers, Parse, NewDirectory, OnlyName, Fresh;
    NoName(t);
    StepOk(t, op);
    var t' := Step(t, op);
    match op
    case Touch(name) =>
      if !Refused(t, name) {
        EntryAnswers(t, t', Fresh(t, 1), name);
        DotsKept(t, t', name, Fresh(t, 1), d, parent);
      }
    case Mkdir(name) =>
      if !Refused(t, name) {
        assert IsLive(t, t.cwd);
        EntryAnswers(t, t', Fresh(t, 1), name);
        DotsKept(t, t', name, Fresh(t, 1), d, parent);
      }
    case Ln(src, dst) =>
      if src != dst {
        FileNumber(t, Parse(t, src));
        EntryAnswers(t, t', Parse(t, src), dst);
        DotsKept(t, t', dst, Parse(t, src), d, parent);
      }
    case Rm(name) =>
      RmRemoves(t, name);
      CwdIsNoFile(t);
      if Parse(t, name) in t.files {
        DotsSpared(t, t', name, d, parent);
      }
    case _ =>
  }

  /** A directory made in any state keeps leading back to where it was made, all through the run. */
  lemma {:induction false} DotsStayOverRuns(t: Tree, ops: seq<Op>, d: nat, parent: nat)
    requires TreeOk(t) && CanRun(t, ops) && DotsLead(t, d, parent)
    ensures DotsLead(After(t, ops), d, parent)
    decreases |ops|
  {
    hide TreeOk, Allowed, Step, DotsLead;
    if ops != [] {
      NoName(t);
      StepOk(t, ops[0]);
      DotsStay(t, ops[0], d, parent);
      DotsStayOverRuns(Step(t, ops[0]), ops[1..], d, parent);
    }
  }

  /** mkdir, then anything that leaves its name alone, then cd there and cd ..: back where it started. */
  lemma ThereAndBack(t: Tree, name: seq<Byte>, ops: seq<Op>)
    requires TreeOk(t) && Allowed(t, Mkdir(name)) && name != [] && |name| <= DENTRY_NAME_LEN && Parse(t, name) == 0
    requires TreeOk(Step(t, Mkdir(name))) && CanRun(Step(t, Mkdir(name)), ops)
    requires var t1 := Step(t, Mkdir(name));
             var t2 := After(t1, ops);
             t2.cwd == t.cwd && t2.cwd in t2.dirs && Parse(t2, name) == Parse(t1, name)
             && Allowed(t2, Cd(name)) && Step(t2, Cd(name)).cwd in Step(t2, Cd(name)).dirs
             && Allowed(Step(t2, Cd(name)), Cd([46, 46]))
    ensures var t2 := After(Step(t, Mkdir(name)), ops);
            Step(Step(t2, Cd(name)), Cd([46, 46])) == t2
  {
    hide TreeOk, Find, Fresh, Answers, Parse;
    NoName(t);
    CwdNumber(t);
    MkdirMakes(t, name);
    var t1 := Step(t, Mkdir(name));
    var n := Parse(t1, name);
    assert t1.dirs.Keys == t.dirs.Keys + {n};
    hide Step;
    assert DotsLead(t1, n, t.cwd);
    DotsStayOverRuns(t1, ops, n, t.cwd);
    var t2 := After(t1, ops);
    CdMoves(t2, name);
    CdMoves(Step(t2, Cd(name)), [46, 46]);
    ParseIs(Step(t2, Cd(name)), [46, 46]);
  }

  lemma RootDots()
    ensures DotsLead(RootOnly(), 1, 1)
  {
    hide Answers, NewDirectory;
    NewDirectoryAnswers(1, 1, [46]);
    NewDirectoryAnswers(1, 1, [46, 46]);
  }

  // ---------------------------------------------------------------- links

  /** Two names of one file: what is written by one name is read by the other. */
  lemma LinkShares(t: Tree, src: seq<Byte>, dst: seq<Byte>, offset: nat, data: seq<Byte>, t1: Tree)
    requires TreeOk(t) && Allowed(t, Ln(src, dst)) && src != dst && dst != [] && Parse(t, dst) == 0
    requires t1 == Step(t, Ln(src, dst)) && TreeOk(t1) && Allowed(t1, Write(src, offset, data))
    ensures var t2 := Step(t1, Write(src, offset, data));
            && t2.cwd in t2.dirs && Parse(t2, dst) == Parse(t, src) && Parse(t2, dst) in t2.files
            && forall i | 0 <= i < |data| :: ByteAt(t2.files[Parse(t2, dst)].bytes, offset + i) == data[i]
  {
    hide TreeOk, Find, Answers, ByteAt, Overwritten;
    NoName(t);
    LnLinks(t, src, dst);
    var t2 := Step(t1, Write(src, offset, data));
    WriteChanges(t1, src, offset, data);
    hide Step, Parse;
    SameNames(t1, t2, dst);
    forall i | 0 <= i < |data|
      ensures ByteAt(t2.files[Parse(t, src)].bytes, offset + i) == data[i]
    {
      assert t2.files[Parse(t, src)].refs == t1.files[Parse(t, src)].refs;
    }
  }

  lemma SameNames(t: Tree, t': Tree, name: seq<Byte>)
    requires t.cwd in t.dirs && t'.dirs == t.dirs && t'.cwd == t.cwd
    ensures Parse(t', name) == Parse(t, name)
  {
  }

  /** A file outlives the name it was made with: a link to it still leads to the same bytes. */
  lemma LinkOutlives(t: Tree, src: seq<Byte>, dst: seq<Byte>, t1: Tree)
    requires TreeOk(t) && Allowed(t, Ln(src, dst)) && src != dst && dst != [] && Parse(t, dst) == 0
    requires t1 == Step(t, Ln(src, dst)) && TreeOk(t1) && Allowed(t1, Rm(src))
    ensures var t2, n := Step(t1, Rm(src)), Parse(t, src);
            && t2.cwd in t2.dirs && Parse(t2, dst) == n && n in t.files && n in t2.files
            && t2.files[n] == t.files[n]
  {
    hide TreeOk, Find, Answers;
    NoName(t);
    LnLinks(t, src, dst);
    HasLinks(t, Parse(t, src));
    RmRemoves(t1, src);
    hide Step, Parse;
  }

  lemma HasLinks(t: Tree, n: nat)
    requires TreeOk(t) && n in t.files
    ensures t.files[n].refs > 0
  {
  }
}
