/** The log that rotates over three files, each closed once it reaches the size limit. */
module RotatingLog {

  /** The three files, the one in use and whether it is open.  A missing file and an
      empty one are opened alike, so both are the empty string. */
  datatype Log = Log(files: seq<string>, no: nat, isOpen: bool)

  predicate LogOk(s: Log) {
    |s.files| == 3 && s.no < 3
  }

  /** The file after `no`, among MAX_LOG_FILE_NUM of them. */
  function Next(no: nat): (r: nat)
    requires no < 3
    ensures r == if no == 2 then 0 else no + 1
  {
    (no + 1) % 3
  }

  /** `LOG_OpenLogFile`: append to a started file, truncate any other. */
  function OpenLogFile(limit: nat, s: Log): Log
    requires LogOk(s)
  {
    if s.isOpen then s
    else if 0 < |s.files[s.no]| < limit then s.(isOpen := true)
    else s.(files := s.files[s.no := ""], isOpen := true)
  }

  /** The file branch of `LOG_PrintLog`. */
  function PrintLog(limit: nat, s: Log, record: string): (t: Log)
    requires LogOk(s)
    ensures LogOk(t)
  {
    var o := OpenLogFile(limit, s);
    var written := o.(files := o.files[o.no := o.files[o.no] + record]);
    if |written.files[written.no]| >= limit then written.(isOpen := false, no := Next(written.no))
    else written
  }

  /** `LOG_Destroy` closes the file and remembers its number. */
  function Destroy(s: Log): Log {
    s.(isOpen := false)
  }

  /** A new process starts from file 0 with nothing open; the files stay. */
  function Restart(s: Log): Log {
    s.(isOpen := false, no := 0)
  }

  /** The same log with the static variables of the original, updated in place. */
  class LogFile {
    var files: array<string>
    var fileNo: nat
    var isOpen: bool
    const limit: nat

    ghost predicate Valid()
      reads this, files
    {
      LogOk(State())
    }

    ghost function State(): Log
      reads this, files
    {
      Log(files[..], fileNo, isOpen)
    }

    /** `LOG_Init`, over whatever files the disk holds. */
    constructor (limit: nat, files: array<string>)
      requires limit > 0 && files.Length == 3
      ensures Valid() && this.limit == limit && this.files == files
      ensures State() == Restart(Log(files[..], fileNo, isOpen))
    {
      this.limit := limit;
      this.files := files;
      fileNo := 0;
      isOpen := false;
    }

    method Open()
      requires Valid()
      modifies this`isOpen, files
      ensures Valid() && State() == OpenLogFile(limit, old(State()))
    {
      if isOpen {
        return;
      }
      var len := |files[fileNo]|;
      if !(len > 0 && len < limit) {
        files[fileNo] := "";
      }
      isOpen := true;
    }

    method Print(record: string)
      requires Valid()
      modifies this, files
      ensures files == old(files) && Valid() && State() == PrintLog(limit, old(State()), record)
    {
      Open();
      files[fileNo] := files[fileNo] + record;
      if |files[fileNo]| >= limit {
        isOpen := false;
        fileNo := Next(fileNo);
      }
    }

    method Close()
      requires Valid()
      modifies this`isOpen
      ensures Valid() && State() == Destroy(old(State()))
    {
      isOpen := false;
    }
  }

  // ------------------------------------------------------------------- runs

  datatype Event = Write(record: string) | Close

  function Step(limit: nat, s: Log, e: Event): (t: Log)
    requires LogOk(s)
    ensures LogOk(t)
  {
    match e
    case Write(r) => PrintLog(limit, s, r)
    case Close => Destroy(s)
  }

  /** The log after `events`, from `s` on. */
  function Run(limit: nat, s: Log, events: seq<Event>): (t: Log)
    requires LogOk(s)
    ensures LogOk(t)
  {
    if events == [] then s
    else Step(limit, Run(limit, s, events[..|events| - 1]), events[|events| - 1])
  }

  /** The log after `events`, starting with no files. */
  function After(limit: nat, events: seq<Event>): (s: Log)
    ensures LogOk(s)
  {
    Run(limit, Log(["", "", ""], 0, false), events)
  }

  /** Records are never empty: each starts with its time. */
  ghost predicate NonemptyRecords(events: seq<Event>) {
    forall i :: 0 <= i < |events| && events[i].Write? ==> events[i].record != ""
  }

  /** Everything ever written, in order. */
  function Written(events: seq<Event>): seq<string> {
    if events == [] then []
    else
      var before := Written(events[..|events| - 1]);
      var e := events[|events| - 1];
      if e.Write? then before + [e.record] else before
  }

  function Flat(records: seq<string>): string {
    if records == [] then "" else records[0] + Flat(records[1..])
  }

  lemma {:induction false} FlatAppend(a: seq<string>, b: seq<string>)
    ensures Flat(a + b) == Flat(a) + Flat(b)
  {
    if a == [] {
      assert a + b == b;
    } else {
      assert (a + b)[1..] == a[1..] + b;
      FlatAppend(a[1..], b);
    }
  }

  function Join(segments: seq<seq<string>>): seq<string> {
    if segments == [] then [] else Join(segments[..|segments| - 1]) + segments[|segments| - 1]
  }

  /** How the records written group into segments: a segment is complete as soon as it
      has `limit` bytes.  This does not look at files at all. */
  datatype Grouping = Grouping(complete: seq<seq<string>>, current: seq<string>)

  function Group(limit: nat, records: seq<string>): Grouping {
    Regroup(limit, Grouping([], []), records)
  }

  /** The grouping `g` with `records` added one by one. */
  function Regroup(limit: nat, g: Grouping, records: seq<string>): Grouping {
    if records == [] then g
    else Extend(limit, Regroup(limit, g, records[..|records| - 1]), records[|records| - 1])
  }

  function Extend(limit: nat, g: Grouping, r: string): Grouping {
    var grown := g.current + [r];
    if |Flat(grown)| >= limit then Grouping(g.complete + [grown], []) else Grouping(g.complete, grown)
  }

  /** The i-th segment from the end of the complete ones, empty if there is none. */
  function FromEnd(complete: seq<seq<string>>, i: nat): string
    requires i > 0
  {
    if i <= |complete| then Flat(complete[|complete| - i]) else ""
  }

  /** Each file holds one whole segment, in rotation; none is started but the current one. */
  ghost predicate Holds(limit: nat, s: Log, g: Grouping)
    requires LogOk(s)
  {
    && s.no == |g.complete| % 3
    && s.files[Next(Next(s.no))] == FromEnd(g.complete, 1)
    && s.files[Next(s.no)] == FromEnd(g.complete, 2)
    && s.files[s.no] == (if g.current != [] then Flat(g.current) else FromEnd(g.complete, 3))
    && (s.isOpen ==> g.current != [])
    && (g.current != [] ==> 0 < |Flat(g.current)| < limit)
    && (forall i :: 0 <= i < |g.complete| ==> Flat(g.complete[i]) == "" || |Flat(g.complete[i])| >= limit)
  }

  lemma FromEndGrows(complete: seq<seq<string>>, segment: seq<string>, i: nat)
    ensures FromEnd(complete + [segment], i + 1) == if i == 0 then Flat(segment) else FromEnd(complete, i)
  {
    hide Flat;
    var grown := complete + [segment];
    if i <= |complete| {
      assert grown[|grown| - (i + 1)] == if i == 0 then segment else complete[|complete| - i];
    }
  }

  lemma FlatGrows(records: seq<string>, r: string)
    ensures Flat(records + [r]) == Flat(records) + r
  {
    FlatAppend(records, [r]);
    assert Flat([r]) == r + Flat([]) == r;
  }

  /** Opening for a write leaves exactly the current segment in the file. */
  lemma HoldsOpen(limit: nat, s: Log, g: Grouping)
    requires limit > 0 && LogOk(s) && Holds(limit, s, g)
    ensures OpenLogFile(limit, s) == s.(files := s.files[s.no := Flat(g.current)], isOpen := true)
  {
    assert FromEnd(g.complete, 3) == "" || |FromEnd(g.complete, 3)| >= limit;
    assert s.files[s.no := s.files[s.no]] == s.files;
  }

  lemma HoldsWrite(limit: nat, s: Log, g: Grouping, r: string)
    requires limit > 0 && LogOk(s) && r != "" && Holds(limit, s, g)
    ensures Holds(limit, PrintLog(limit, s, r), Extend(limit, g, r))
  {
    hide Flat, OpenLogFile, FromEnd;
    var grown := g.current + [r];
    HoldsOpen(limit, s, g);
    FlatGrows(g.current, r);
    var t := PrintLog(limit, s, r);
    assert t.files == s.files[s.no := Flat(grown)];
    if |Flat(grown)| >= limit {
      FromEndGrows(g.complete, grown, 0);
      FromEndGrows(g.complete, grown, 1);
      FromEndGrows(g.complete, grown, 2);
    }
  }

  lemma {:induction false} HoldsRun(limit: nat, s: Log, g: Grouping, events: seq<Event>)
    requires limit > 0 && LogOk(s) && Holds(limit, s, g) && NonemptyRecords(events)
    ensures Holds(limit, Run(limit, s, events), Regroup(limit, g, Written(events)))
  {
    if events != [] {
      hide Holds, PrintLog, Extend;
      var before, e := events[..|events| - 1], events[|events| - 1];
      HoldsRun(limit, s, g, before);
      var t, h := Run(limit, s, before), Regroup(limit, g, Written(before));
      if e.Write? {
        assert Written(events)[..|Written(events)| - 1] == Written(before);
        HoldsWrite(limit, t, h, e.record);
      } else {
        HoldsClose(limit, t, h);
      }
    }
  }

  lemma HoldsClose(limit: nat, s: Log, g: Grouping)
    requires LogOk(s) && Holds(limit, s, g)
    ensures Holds(limit, Destroy(s), g)
  {
  }

  lemma HoldsAfter(limit: nat, events: seq<Event>)
    requires limit > 0 && NonemptyRecords(events)
    ensures Holds(limit, After(limit, events), Group(limit, Written(events)))
  {
    HoldsRun(limit, Log(["", "", ""], 0, false), Grouping([], []), events);
  }

  /** Every complete segment has at least `limit` bytes. */
  lemma {:induction false} SegmentsFull(limit: nat, records: seq<string>)
    ensures forall i :: 0 <= i < |Group(limit, records).complete| ==> |Flat(Group(limit, records).complete[i])| >= limit
  {
    if records != [] {
      hide Flat;
      var before, r := records[..|records| - 1], records[|records| - 1];
      SegmentsFull(limit, before);
      assert Group(limit, records) == Extend(limit, Group(limit, before), r);
    }
  }

  // --------------------------------------------------------------- theorems

  /** The disk, oldest file first.  A file in use that has reached the limit is about
      to be truncated and is the oldest; otherwise it is the newest. */
  function Disk(limit: nat, s: Log): string
    requires LogOk(s)
  {
    var next, last := s.files[Next(s.no)], s.files[Next(Next(s.no))];
    if |s.files[s.no]| >= limit then s.files[s.no] + next + last else next + last + s.files[s.no]
  }

  /** The file in use holds a segment that is not complete yet. */
  predicate Started(limit: nat, s: Log)
    requires LogOk(s)
  {
    0 < |s.files[s.no]| < limit
  }

  lemma ExtendJoins(limit: nat, g: Grouping, r: string)
    ensures var h := Extend(limit, g, r); Join(h.complete) + h.current == Join(g.complete) + g.current + [r]
  {
    var grown := g.current + [r];
    assert (g.complete + [grown])[..|g.complete|] == g.complete;
    assert Join(g.complete) + grown == Join(g.complete) + g.current + [r];
  }

  lemma {:induction false} RegroupJoins(limit: nat, g: Grouping, records: seq<string>)
    ensures var h := Regroup(limit, g, records); Join(h.complete) + h.current == Join(g.complete) + g.current + records
  {
    if records != [] {
      hide Extend, Join;
      var before, r := records[..|records| - 1], records[|records| - 1];
      assert before + [r] == records;
      RegroupJoins(limit, g, before);
      ExtendJoins(limit, Regroup(limit, g, before), r);
    }
  }

  lemma GroupJoins(limit: nat, records: seq<string>)
    ensures var g := Group(limit, records); Join(g.complete) + g.current == records
  {
    RegroupJoins(limit, Grouping([], []), records);
    assert Join([]) + [] + records == records;
  }

  /** How many of the complete segments are still on the disk. */
  function Kept(g: Grouping): nat {
    var room := if g.current == [] then 3 else 2;
    if |g.complete| < room then |g.complete| else room
  }

  lemma {:induction false} JoinAppend(a: seq<seq<string>>, b: seq<seq<string>>)
    ensures Join(a + b) == Join(a) + Join(b)
  {
    if b == [] {
      assert a + b == a;
    } else {
      assert (a + b)[..|a + b| - 1] == a + b[..|b| - 1];
      JoinAppend(a, b[..|b| - 1]);
    }
  }

  /** The text of the last `m` complete segments. */
  function LastText(complete: seq<seq<string>>, m: nat): string {
    if m == 0 then "" else FromEnd(complete, m) + LastText(complete, m - 1)
  }

  lemma {:induction false} JoinLast(complete: seq<seq<string>>, m: nat)
    requires m <= |complete|
    ensures Flat(Join(complete[|complete| - m..])) == LastText(complete, m)
  {
    if m == 0 {
      assert complete[|complete|..] == [];
    } else {
      var first, rest := [complete[|complete| - m]], complete[|complete| - m + 1..];
      assert complete[|complete| - m..] == first + rest;
      JoinAppend(first, rest);
      assert first[..0] == [] && Join(first) == first[0];
      FlatAppend(first[0], Join(rest));
      JoinLast(complete, m - 1);
    }
  }

  /** Segments there are not have no text. */
  lemma {:induction false} LastTextFew(t: seq<seq<string>>, m: nat)
    ensures LastText(t, m) == LastText(t, if m < |t| then m else |t|)
  {
    if m > |t| {
      assert LastText(t, m) == "" + LastText(t, m - 1);
      LastTextFew(t, m - 1);
    }
  }

  lemma LastTexts(t: seq<seq<string>>)
    ensures LastText(t, 2) == FromEnd(t, 2) + FromEnd(t, 1)
    ensures LastText(t, 3) == FromEnd(t, 3) + FromEnd(t, 2) + FromEnd(t, 1)
  {
    hide FromEnd;
    assert LastText(t, 1) == FromEnd(t, 1) + LastText(t, 0) == FromEnd(t, 1);
    assert LastText(t, 2) == FromEnd(t, 2) + LastText(t, 1);
    assert LastText(t, 3) == FromEnd(t, 3) + LastText(t, 2);
  }

  /** A file in use that is full or empty can be read as the oldest. */
  lemma DiskFromOldest(limit: nat, s: Log)
    requires LogOk(s) && !Started(limit, s)
    ensures Disk(limit, s) == s.files[s.no] + s.files[Next(s.no)] + s.files[Next(Next(s.no))]
  {
    var next, last := s.files[Next(s.no)], s.files[Next(Next(s.no))];
    assert "" + next + last == next + last + "";
  }

  /** The three files, in the order `Disk` reads them, are the kept segments. */
  lemma DiskText(limit: nat, s: Log, g: Grouping)
    requires limit > 0 && LogOk(s) && Holds(limit, s, g)
    ensures Disk(limit, s) == LastText(g.complete, Kept(g)) + Flat(g.current)
  {
    LastTexts(g.complete);
    LastTextFew(g.complete, if g.current == [] then 3 else 2);
    if g.current == [] {
      NothingStarted(limit, s, g);
      hide Disk, FromEnd, LastText;
      DiskFromOldest(limit, s);
      var text := LastText(g.complete, Kept(g));
      assert text == text + Flat(g.current);
    } else {
      hide FromEnd, LastText;
    }
  }

  lemma NothingStarted(limit: nat, s: Log, g: Grouping)
    requires LogOk(s) && Holds(limit, s, g) && g.current == []
    ensures s.files[s.no] == FromEnd(g.complete, 3) && Flat(g.current) == "" && !Started(limit, s)
  {
  }

  /** The disk always reads as a suffix of the whole history, cut between records, and
      it reaches back over at least the last two complete segments. */
  lemma DiskHoldsSuffix(limit: nat, events: seq<Event>) returns (from: nat)
    requires limit > 0 && NonemptyRecords(events)
    ensures from <= |Written(events)|
    ensures Disk(limit, After(limit, events)) == Flat(Written(events)[from..])
    ensures var g := Group(limit, Written(events));
      && Written(events)[from..] == Join(g.complete[|g.complete| - Kept(g)..]) + g.current
      && Kept(g) >= (if |g.complete| < 2 then |g.complete| else 2)
      && forall i :: 0 <= i < |g.complete| ==> |Flat(g.complete[i])| >= limit
  {
    hide After, Regroup, Holds, Flat, Disk, LastText, Join;
    var s, g := After(limit, events), Group(limit, Written(events));
    HoldsAfter(limit, events);
    DiskText(limit, s, g);
    GroupJoins(limit, Written(events));
    SegmentsFull(limit, Written(events));
    from := DropSegments(g, Written(events), Kept(g));
  }

  /** Keeping the last `m` complete segments keeps a suffix of the records. */
  lemma DropSegments(g: Grouping, records: seq<string>, m: nat) returns (from: nat)
    requires m <= |g.complete| && Join(g.complete) + g.current == records
    ensures from <= |records| && records[from..] == Join(g.complete[|g.complete| - m..]) + g.current
    ensures Flat(records[from..]) == LastText(g.complete, m) + Flat(g.current)
  {
    var dropped, kept := g.complete[..|g.complete| - m], g.complete[|g.complete| - m..];
    assert g.complete == dropped + kept;
    JoinAppend(dropped, kept);
    from := |Join(dropped)|;
    assert records[from..] == Join(kept) + g.current;
    FlatAppend(Join(kept), g.current);
    JoinLast(g.complete, m);
  }

  predicate IsSegment(g: Grouping, segment: seq<string>) {
    segment == [] || segment == g.current || segment in g.complete
  }

  /** No file ever holds part of a record: each is the flattening of consecutive records. */
  lemma FilesHoldWholeRecords(limit: nat, events: seq<Event>, j: nat)
    requires limit > 0 && NonemptyRecords(events) && j < 3
    ensures var s, g := After(limit, events), Group(limit, Written(events));
      exists segment: seq<string> :: s.files[j] == Flat(segment) && IsSegment(g, segment)
  {
    hide After, Group, Written;
    HoldsAfter(limit, events);
    var s, g := After(limit, events), Group(limit, Written(events));
    var n := |g.complete|;
    var back := if j == s.no then 3 else if j == Next(Next(s.no)) then 1 else 2;
    var segment := if j == s.no && g.current != [] then g.current else if back <= n then g.complete[n - back] else [];
    assert s.files[j] == Flat(segment);
  }

  lemma OpenAfterWrite(limit: nat, s: Log, g: Grouping, r: string)
    requires limit > 0 && LogOk(s) && r != "" && Holds(limit, s, g)
    ensures PrintLog(limit, s, r).isOpen <==> Extend(limit, g, r).current != []
  {
    hide Flat, OpenLogFile, Holds;
    HoldsOpen(limit, s, g);
    FlatGrows(g.current, r);
  }

  /** After every run a file is open exactly if the last thing that happened was a write that
      did not complete its segment: a write opens, closing closes, the limit closes as well. */
  lemma OpenIff(limit: nat, events: seq<Event>)
    requires limit > 0 && NonemptyRecords(events)
    ensures After(limit, events).isOpen <==>
      && events != [] && events[|events| - 1].Write?
      && Group(limit, Written(events)).current != []
  {
    if events != [] && events[|events| - 1].Write? {
      var before, r := events[..|events| - 1], events[|events| - 1].record;
      HoldsAfter(limit, before);
      OpenAfterWrite(limit, After(limit, before), Group(limit, Written(before)), r);
      assert Written(events)[..|Written(events)| - 1] == Written(before);
    }
  }

  // --------------------------------------------------------------- restarts

  predicate IsSuffix(a: string, b: string) {
    |a| <= |b| && b[|b| - |a|..] == a
  }

  lemma SuffixTrans(a: string, b: string, c: string)
    requires IsSuffix(a, b) && IsSuffix(b, c)
    ensures IsSuffix(a, c)
  {
    assert c[|c| - |a|..] == c[|c| - |b|..][|b| - |a|..];
  }

  function Text(g: Grouping): string {
    Flat(Join(g.complete) + g.current)
  }

  /** The files are whole segments in rotation whose text ends `history`. */
  ghost predicate Tracks(limit: nat, s: Log, history: string) {
    LogOk(s) && exists g :: Holds(limit, s, g) && IsSuffix(Text(g), history)
  }

  lemma AfterTracks(limit: nat, events: seq<Event>)
    requires limit > 0 && NonemptyRecords(events)
    ensures Tracks(limit, After(limit, events), Flat(Written(events)))
  {
    hide After, Regroup, Holds, Flat, Written;
    HoldsAfter(limit, events);
    GroupJoins(limit, Written(events));
    assert Text(Group(limit, Written(events))) == Flat(Written(events));
  }

  lemma DiskInText(limit: nat, s: Log, g: Grouping)
    requires limit > 0 && LogOk(s) && Holds(limit, s, g)
    ensures IsSuffix(Disk(limit, s), Text(g))
  {
    hide Disk, Holds;
    var records := Join(g.complete) + g.current;
    DiskText(limit, s, g);
    var from := DropSegments(g, records, Kept(g));
    assert records == records[..from] + records[from..];
    FlatAppend(records[..from], records[from..]);
  }

  /** Files that track their history read as a suffix of it. */
  lemma TracksInOrder(limit: nat, s: Log, history: string)
    requires limit > 0 && Tracks(limit, s, history)
    ensures IsSuffix(Disk(limit, s), history)
  {
    hide Disk, Holds, Text;
    var g :| Holds(limit, s, g) && IsSuffix(Text(g), history);
    DiskInText(limit, s, g);
    SuffixTrans(Disk(limit, s), Text(g), history);
  }

  lemma TracksRun(limit: nat, s: Log, history: string, more: seq<Event>)
    requires limit > 0 && Tracks(limit, s, history) && NonemptyRecords(more)
    ensures Tracks(limit, Run(limit, s, more), history + Flat(Written(more)))
  {
    hide Run, Flat, Regroup, Holds, Join;
    var g :| Holds(limit, s, g) && IsSuffix(Text(g), history);
    var h := Regroup(limit, g, Written(more));
    HoldsRun(limit, s, g, more);
    RegroupJoins(limit, g, Written(more));
    FlatAppend(Join(g.complete) + g.current, Written(more));
    assert Text(h) == Text(g) + Flat(Written(more));
    assert IsSuffix(Text(h), history + Flat(Written(more)));
  }

  /** The number of the file in use does not survive the process: a new one starts at
      file 0.  That does no harm if file 0 is the one in use, or else if the file in use
      is not started and the files read the same from file 0 on as they do now. */
  predicate SafeRestart(limit: nat, s: Log)
    requires LogOk(s)
  {
    s.no == 0 || (!Started(limit, s) && s.files[0] + s.files[1] + s.files[2] == Disk(limit, s))
  }

  /** What a new process finds tracks the history as before. */
  lemma RestartTracks(limit: nat, s: Log, history: string)
    requires limit > 0 && Tracks(limit, s, history) && SafeRestart(limit, s)
    ensures Tracks(limit, Restart(s), history)
  {
    var g :| Holds(limit, s, g) && IsSuffix(Text(g), history);
    if s.no == 0 {
      assert Holds(limit, Restart(s), g);
    } else {
      var h := AsSegments(limit, s, g);
      DiskInText(limit, s, g);
      SuffixTrans(Text(h), Text(g), history);
    }
  }

  /** Three files of which none is started are three segments, file 0 the oldest. */
  lemma AsSegments(limit: nat, s: Log, g: Grouping) returns (h: Grouping)
    requires LogOk(s) && Holds(limit, s, g) && !Started(limit, s)
    ensures Holds(limit, Restart(s), h) && Text(h) == s.files[0] + s.files[1] + s.files[2]
  {
    hide Flat, Join, Holds;
    var f0, f1, f2 := s.files[0], s.files[1], s.files[2];
    h := Grouping([[f0], [f1], [f2]], []);
    OtherFilesWhole(limit, s, g);
    FlatThree(f0, f1, f2);
    HoldsThree(limit, Restart(s), h);
    JoinThree([f0], [f1], [f2]);
    assert Join(h.complete) + h.current == [f0] + [f1] + [f2];
  }

  lemma HoldsThree(limit: nat, s: Log, g: Grouping)
    requires LogOk(s) && s.no == 0 && !s.isOpen && |g.complete| == 3 && g.current == []
    requires forall j :: 0 <= j < 3 ==> Flat(g.complete[j]) == s.files[j] && (s.files[j] == "" || |s.files[j]| >= limit)
    ensures Holds(limit, s, g)
  {
    hide Flat;
  }

  lemma FlatOne(a: string)
    ensures Flat([a]) == a
  {
    assert [a][1..] == [] && Flat([a]) == a + Flat([a][1..]);
  }

  lemma FlatThree(a: string, b: string, c: string)
    ensures Flat([a]) == a && Flat([b]) == b && Flat([c]) == c && Flat([a] + [b] + [c]) == a + b + c
  {
    FlatOne(a);
    FlatOne(b);
    FlatOne(c);
    hide Flat;
    FlatAppend([a] + [b], [c]);
    FlatAppend([a], [b]);
  }

  lemma JoinThree(a: seq<string>, b: seq<string>, c: seq<string>)
    ensures Join([a, b, c]) == a + b + c
  {
    assert [a, b, c][..2] == [a, b] && [a, b][..1] == [a] && [a][..0] == [];
    assert Join([a]) == a && Join([a, b]) == a + b;
  }

  lemma OtherFilesWhole(limit: nat, s: Log, g: Grouping)
    requires LogOk(s) && Holds(limit, s, g)
    ensures forall j :: 0 <= j < 3 && j != s.no ==> s.files[j] == "" || |s.files[j]| >= limit
  {
    hide Flat;
  }

  /** Writes of the new process keep the disk in order. */
  ghost predicate InOrder(limit: nat, s: Log, history: string, more: seq<Event>)
    requires LogOk(s)
  {
    IsSuffix(Disk(limit, Run(limit, Restart(s), more)), history + Flat(Written(more)))
  }

  /** Exactly when the order survives a restart: whatever the new process goes on to do,
      the files read as a suffix of everything written, before and after.  After a safe
      restart the log tracks its history, so this tells of the next restart as well. */
  lemma RestartKeepsOrderIff(limit: nat, s: Log, history: string)
    requires limit > 0 && LogOk(s) && Tracks(limit, s, history)
    ensures (forall more :: NonemptyRecords(more) ==> InOrder(limit, s, history, more)) <==> SafeRestart(limit, s)
    ensures SafeRestart(limit, s) ==> forall more :: NonemptyRecords(more) ==>
      Tracks(limit, Run(limit, Restart(s), more), history + Flat(Written(more)))
  {
    hide Tracks, Disk, Run, Flat, Written, NonemptyRecords;
    if SafeRestart(limit, s) {
      RestartTracks(limit, s, history);
      forall more | NonemptyRecords(more)
        ensures Tracks(limit, Run(limit, Restart(s), more), history + Flat(Written(more)))
        ensures InOrder(limit, s, history, more)
      {
        TracksRun(limit, Restart(s), history, more);
        TracksInOrder(limit, Run(limit, Restart(s), more), history + Flat(Written(more)));
      }
    } else {
      var more := UnsafeRestart(limit, s, history);
    }
  }

  /** Otherwise some continuation reads out of order. */
  lemma UnsafeRestart(limit: nat, s: Log, history: string) returns (more: seq<Event>)
    requires limit > 0 && LogOk(s) && Tracks(limit, s, history) && !SafeRestart(limit, s)
    ensures NonemptyRecords(more) && !InOrder(limit, s, history, more)
  {
    hide Holds, Disk, InOrder;
    var g :| Holds(limit, s, g) && IsSuffix(Text(g), history);
    OtherFilesWhole(limit, s, g);
    if Started(limit, s) {
      more := AbandonStarted(limit, s, history);
    } else {
      more := [];
      TracksInOrder(limit, s, history);
      OrdersDiffer(limit, s, history);
    }
  }

  /** Full and empty files in another order are no suffix of the same length. */
  lemma OrdersDiffer(limit: nat, s: Log, history: string)
    requires limit > 0 && LogOk(s) && s.no != 0 && !Started(limit, s) && IsSuffix(Disk(limit, s), history)
    requires s.files[0] + s.files[1] + s.files[2] != Disk(limit, s)
    requires forall j :: 0 <= j < 3 && j != s.no ==> s.files[j] == "" || |s.files[j]| >= limit
    ensures !InOrder(limit, s, history, [])
  {
    DiskFromOldest(limit, Restart(s));
    assert |Disk(limit, s)| == |s.files[0]| + |s.files[1]| + |s.files[2]|;
    assert history + Flat(Written([])) == history;
  }

  /** A started file that is left behind: once the files before it are full again it
      counts as the newest, although it ends in older text. */
  lemma AbandonStarted(limit: nat, s: Log, history: string) returns (more: seq<Event>)
    requires limit > 0 && LogOk(s) && s.no != 0 && Started(limit, s)
    requires forall j :: 0 <= j < 3 && j != s.no ==> s.files[j] == "" || |s.files[j]| >= limit
    ensures NonemptyRecords(more) && !InOrder(limit, s, history, more)
  {
    hide Run, Flat, Written, Disk, Restart, Next, IsSuffix, NonemptyRecords;
    var left := s.files[s.no];
    var x := FullRecord(limit, if left[|left| - 1] == 'a' then 'b' else 'a');
    more := if s.no == 1 then [Write(x)] else [Write(x), Write(x)];
    var t := FillBefore(limit, s, x, more);
    StartedIsLast(limit, t);
    WrittenEnds(more, x, history);
    EndsDiffer(left, Disk(limit, t), x, history + Flat(Written(more)));
  }

  lemma FullRecord(limit: nat, d: char) returns (x: string)
    requires limit > 0
    ensures |x| == limit && x[limit - 1] == d
  {
    x := seq(limit, _ => d);
  }

  lemma StartedIsLast(limit: nat, s: Log)
    requires LogOk(s) && Started(limit, s)
    ensures IsSuffix(s.files[s.no], Disk(limit, s))
  {
  }

  lemma EndsDiffer(a: string, read: string, b: string, written: string)
    requires a != "" && b != "" && a[|a| - 1] != b[|b| - 1] && IsSuffix(a, read) && IsSuffix(b, written)
    ensures !IsSuffix(read, written)
  {
    assert read[|read| - 1] == a[|a| - 1] && written[|written| - 1] == b[|b| - 1];
  }

  /** Full records go to file 0 and, if that is before the started one, to file 1. */
  lemma FillBefore(limit: nat, s: Log, x: string, more: seq<Event>) returns (t: Log)
    requires limit > 0 && LogOk(s) && s.no != 0 && Started(limit, s) && |x| >= limit
    requires forall j :: 0 <= j < 3 && j != s.no ==> s.files[j] == "" || |s.files[j]| >= limit
    requires more == if s.no == 1 then [Write(x)] else [Write(x), Write(x)]
    ensures t == Run(limit, Restart(s), more) && t.no == s.no && t.files[t.no] == s.files[s.no]
  {
    assert "" + x == x;
    var one := PrintLog(limit, Restart(s), x);
    assert one == Log(s.files[0 := x], 1, false);
    assert Run(limit, Restart(s), []) == Restart(s);
    assert [Write(x)][..0] == [];
    assert Run(limit, Restart(s), [Write(x)]) == one;
    t := one;
    if s.no == 2 {
      t := PrintLog(limit, one, x);
      assert t == Log(s.files[0 := x][1 := x], 2, false);
      assert [Write(x), Write(x)][..1] == [Write(x)];
    }
  }

  lemma WrittenEnds(more: seq<Event>, x: string, history: string)
    requires more == [Write(x)] || more == [Write(x), Write(x)]
    ensures IsSuffix(x, history + Flat(Written(more))) && (x != "" ==> NonemptyRecords(more))
  {
    FlatGrows(Written(more[..|more| - 1]), x);
  }

  /** For the first process the condition comes to this: the file in use is file 0, or it
      is still empty, or it is full and the files have the same text in both orders. */
  lemma FirstRestartIff(limit: nat, first: seq<Event>)
    requires limit > 0 && NonemptyRecords(first)
    ensures var s, history := After(limit, first), Flat(Written(first));
      (forall more :: NonemptyRecords(more) ==> InOrder(limit, s, history, more)) <==>
        || s.no == 0 || s.files[s.no] == ""
        || (|s.files[s.no]| >= limit
            && s.files[0] + s.files[1] + s.files[2] == s.files[s.no] + s.files[Next(s.no)] + s.files[Next(Next(s.no))])
  {
    hide InOrder, After, NonemptyRecords;
    var s := After(limit, first);
    AfterTracks(limit, first);
    RestartKeepsOrderIff(limit, s, Flat(Written(first)));
    EmptyFileInUse(limit, first);
  }

  /** Unsafe restarts are as near as the second segment: after one full record and a short
      one, some continuation in a new process reads out of order. */
  lemma SecondSegmentUnsafe(limit: nat, x: string, y: string) returns (more: seq<Event>)
    requires |x| >= limit && 0 < |y| < limit
    ensures var first := [Write(x), Write(y)];
      NonemptyRecords(more) && !InOrder(limit, After(limit, first), Flat(Written(first)), more)
  {
    assert "" + x == x && "" + y == y;
    var empty, first := Log(["", "", ""], 0, false), [Write(x), Write(y)];
    var one := Log([x, "", ""], 1, false);
    assert first[..1] == [Write(x)] && first[..1][..0] == [];
    assert Run(limit, empty, []) == empty;
    assert PrintLog(limit, empty, x) == one;
    assert Run(limit, empty, [Write(x)]) == one;
    assert After(limit, first) == Log([x, y, ""], 1, true);
    more := AbandonStarted(limit, After(limit, first), Flat(Written(first)));
  }

  /** While the file in use is empty the files fill up from file 0 on. */
  lemma EmptyFileInUse(limit: nat, events: seq<Event>)
    requires limit > 0 && NonemptyRecords(events)
    ensures var s := After(limit, events);
      s.files[s.no] == "" ==> s.files[0] + s.files[1] + s.files[2] == Disk(limit, s)
  {
    hide After, Flat;
    var s, g := After(limit, events), Group(limit, Written(events));
    HoldsAfter(limit, events);
    SegmentsFull(limit, Written(events));
    if s.files[s.no] == "" {
      assert |g.complete| < 3;
    }
  }
}
