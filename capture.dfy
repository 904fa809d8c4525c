/**
 * The capture subsystem of capture.rs: a recording flag, a frame sequence number
 * that only grows, a list of pending images that a flush saves, and the files the
 * subsystem asks to be written.  Each file is recorded in `writes`, by its frame
 * number, at the moment the number is assigned: a job handed to the worker pool by
 * a screen grab (`Spawned`, the job flips the readback and saves a PNG) or an image
 * saved by a flush (`Saved`).  Frame n is written to `FramePath(n)`, the
 * `{prefix}{n:08}.png` name inside the capture directory.
 *
 * `State` and its member functions specify each operation; class `Capture`
 * implements them on fields that its methods update in place.
 */
module ScreenCapture {
  import opened Filenames
  import opened RowFlip

  /** An RGB image as the `image` crate holds it: rows top first. */
  datatype Image = Image(width: nat, height: nat, rows: seq<seq<Rgb>>)

  /** A file the subsystem writes, listed in the order its number was assigned. */
  datatype Write =
    | Spawned(frame: nat, readback: seq<byte>)
    | Saved(frame: nat, image: Image)
  {
    /** The file written: the frame's name inside the capture directory. */
    function Path(c: Config): string { c.FramePath(frame) }
  }

  /** A Unix path that starts at the root. */
  predicate Absolute(s: string) { |s| > 0 && s[0] == '/' }

  /** `PathBuf::push` adds a separator only after a non-empty base not already ending in one. */
  predicate NeedsSeparator(dir: string) { |dir| > 0 && dir[|dir| - 1] != '/' }

  /** `PathBuf::join` on Unix: an absolute name replaces the base; a relative one follows
      the base, after a '/' only where `NeedsSeparator` says so. */
  function Join(dir: string, name: string): (p: string)
    ensures Absolute(name) ==> p == name
    ensures !Absolute(name) ==>
      |p| == |dir| + (if NeedsSeparator(dir) then 1 else 0) + |name|
      && p[..|dir|] == dir && p[|p| - |name|..] == name
    ensures !Absolute(name) && dir != [] ==> p[|p| - |name| - 1] == '/'
  {
    if Absolute(name) then name
    else if NeedsSeparator(dir) then dir + "/" + name
    else dir + name
  }

  /** The three shapes of a join: an empty base adds no separator, a base ending in '/'
      adds none either, and an absolute name replaces the base. */
  lemma JoinCases()
    ensures Join("", "x") == "x"
    ensures Join("caps/", "t") == "caps/t" && Join("caps", "t") == "caps/t"
    ensures Join("caps", "/t") == "/t"
  {
  }

  /** Names of the same kind (both absolute or both relative) joined onto one directory
      give one path only when they are equal. */
  lemma JoinInjective(dir: string, a: string, b: string)
    requires Absolute(a) == Absolute(b)
    requires Join(dir, a) == Join(dir, b)
    ensures a == b
  {
    var p := Join(dir, a);
    if !Absolute(a) {
      assert |a| == |b|;
      assert a == p[|p| - |a|..];
      assert b == p[|p| - |b|..];
    }
  }

  /** The kind condition is needed: a relative and an absolute name can meet. */
  lemma JoinKindsCollide()
    ensures Join("/x", "y") == Join("/x", "/x/y") && "y" != "/x/y"
  {
  }

  /** What a capture fixes at construction: directory, file prefix and frame size. */
  datatype Config = Config(path: string, prefix: string, width: nat, height: nat)
  {
    /** Where frame number `n` is written. */
    function FramePath(n: nat): (p: string)
      ensures |p| >= |FrameName(prefix, n)| && p[|p| - |FrameName(prefix, n)|..] == FrameName(prefix, n)
      ensures Absolute(prefix) ==> p == FrameName(prefix, n)
      ensures !Absolute(prefix) ==> |p| >= |path| && p[..|path|] == path
    {
      FrameNameKind(prefix, n);
      Join(path, FrameName(prefix, n))
    }
  }

  /** A frame name is absolute exactly when its prefix is: the digits never start with '/'. */
  lemma FrameNameKind(prefix: string, n: nat)
    ensures Absolute(FrameName(prefix, n)) == Absolute(prefix)
  {
    var name := FrameName(prefix, n);
    if prefix == [] {
      assert name[0] == Padded(n)[0];
      assert IsDigit(Padded(n)[0]);
    } else {
      assert name[0] == prefix[0];
    }
  }

  /** The background task of one screen grab: the readback with its rows flipped. */
  function Encode(c: Config, readback: seq<byte>): (img: Image)
    requires |readback| == BufferSize(c.width, c.height)
    ensures img.width == c.width && img.height == c.height && |img.rows| == c.height
    ensures forall i :: 0 <= i < c.height ==>
      img.rows[i] == ReadbackRow(readback, c.width, c.height, c.height - 1 - i)
  {
    var rows := Flipped(readback, c.width, c.height);
    assert forall i :: 0 <= i < c.height ==>
      rows[i] == ReadbackRow(readback, c.width, c.height, c.height - 1 - i) by {
      forall i | 0 <= i < c.height
        ensures rows[i] == ReadbackRow(readback, c.width, c.height, c.height - 1 - i)
      {
        FlippedMirrorsRows(readback, c.width, c.height, i);
      }
    }
    Image(c.width, c.height, rows)
  }

  /** The saves of a flush that starts after frame `start`: image k gets number start + k + 1. */
  function FlushWrites(c: Config, start: nat, images: seq<Image>): (saves: seq<Write>)
    ensures |saves| == |images|
  {
    if images == [] then []
    else FlushWrites(c, start, images[..|images| - 1])
         + [Saved(start + |images|, images[|images| - 1])]
  }

  lemma {:induction false} FlushWritesNumbered(c: Config, start: nat, images: seq<Image>)
    ensures |FlushWrites(c, start, images)| == |images|
    ensures forall k :: 0 <= k < |images| ==>
      FlushWrites(c, start, images)[k] == Saved(start + k + 1, images[k])
  {
    FlushWritesLength(c, start, images);
    forall k | 0 <= k < |images|
      ensures FlushWrites(c, start, images)[k] == Saved(start + k + 1, images[k])
    {
      FlushWriteAt(c, start, images, k);
    }
  }

  lemma {:induction false} FlushWritesLength(c: Config, start: nat, images: seq<Image>)
    ensures |FlushWrites(c, start, images)| == |images|
  {
    if images != [] {
      FlushWritesLength(c, start, images[..|images| - 1]);
    }
  }

  /** Image k of a flush is saved under number start + k + 1. */
  lemma {:induction false} FlushWriteAt(c: Config, start: nat, images: seq<Image>, k: nat)
    requires k < |images|
    ensures |FlushWrites(c, start, images)| == |images|
    ensures FlushWrites(c, start, images)[k] == Saved(start + k + 1, images[k])
  {
    var n := |images| - 1;
    var init := images[..n];
    var prev := FlushWrites(c, start, init);
    assert FlushWrites(c, start, images) == prev + [Saved(start + n + 1, images[n])];
    FlushWritesLength(c, start, init);
    if k < n {
      FlushWriteAt(c, start, init, k);
      assert init[k] == images[k];
    }
  }

  /** The writes of a flush extend the log with consecutive numbers, keeping it valid. */
  lemma FlushExtends(c: Config, s: State, t: State)
    requires t.seqNo == s.seqNo + |s.images|
    requires t.writes == s.writes + FlushWrites(c, s.seqNo, s.images)
    ensures |t.writes| == |s.writes| + |s.images| && t.writes[..|s.writes|] == s.writes
    ensures forall k :: 0 <= k < |s.images| ==>
      t.writes[|s.writes| + k] == Saved(s.seqNo + k + 1, s.images[k])
    ensures s.Valid(c) ==> t.Valid(c)
  {
    var added := FlushWrites(c, s.seqNo, s.images);
    FlushWritesNumbered(c, s.seqNo, s.images);
    AppendedAt(s.writes, added);
    if s.Valid(c) {
      AppendKeepsValid(c, s, t, added);
    }
  }

  lemma AppendedAt(a: seq<Write>, b: seq<Write>)
    ensures (a + b)[..|a|] == a
    ensures forall k :: 0 <= k < |b| ==> (a + b)[|a| + k] == b[k]
  {
  }

  lemma AppendKeepsValid(c: Config, s: State, t: State, added: seq<Write>)
    requires s.Valid(c) && t.writes == s.writes + added && t.seqNo == s.seqNo + |added|
    requires forall k :: 0 <= k < |added| ==> added[k].frame == s.seqNo + k + 1
    requires forall k :: 0 <= k < |added| ==> !added[k].Spawned?
    ensures t.Valid(c)
  {
    var n := |s.writes|;
    forall k | 0 <= k < |t.writes|
      ensures t.writes[k].frame == k + 1
      ensures t.writes[k].Spawned? ==> |t.writes[k].readback| == BufferSize(c.width, c.height)
    {
      if k < n {
        assert t.writes[k] == s.writes[k];
      } else {
        assert t.writes[k] == added[k - n];
      }
    }
  }

  datatype Op =
    | ScreenGrab(readback: seq<byte>)
    | Start
    | Stop(dirCreated: bool)
    | Toggle(dirCreated: bool)
    | Enable(on: bool, dirCreated: bool)

  /** The readback of a grab fills the `w * h * 3` buffer capture.rs:44 allocates. */
  predicate Fits(c: Config, op: Op)
  {
    op.ScreenGrab? ==> |op.readback| == BufferSize(c.width, c.height)
  }

  datatype State = State(seqNo: nat, enabled: bool, images: seq<Image>, writes: seq<Write>)
  {
    /** Every number 1..seqNo was given to exactly the write at that position, and every
        job handed to the worker pool carries a full readback. */
    predicate Valid(c: Config)
    {
      && |writes| == seqNo
      && (forall k :: 0 <= k < |writes| ==> writes[k].frame == k + 1)
      && (forall k :: 0 <= k < |writes| && writes[k].Spawned? ==>
            |writes[k].readback| == BufferSize(c.width, c.height))
    }

    /** `screen_grab`, capture.rs:42-76. */
    function Grab(c: Config, readback: seq<byte>): (s: State)
      ensures !enabled ==> s == this
      ensures enabled ==> s.seqNo == seqNo + 1 && s.enabled && s.images == images
      ensures enabled ==> s.writes == writes + [Spawned(s.seqNo, readback)]
      ensures Valid(c) && |readback| == BufferSize(c.width, c.height) ==> s.Valid(c)
    {
      if enabled then
        var n := seqNo + 1;
        this.(seqNo := n, writes := writes + [Spawned(n, readback)])
      else
        this
    }

    /** `flush`, capture.rs:78-96: with the directory in place, each pending image in turn
        takes the next number and is saved; the pending list is emptied in any case. */
    function Flush(c: Config, dirCreated: bool): (s: State)
      ensures s.images == [] && s.enabled == enabled
      ensures dirCreated ==> s.seqNo == seqNo + |images|
      ensures dirCreated ==> |s.writes| == |writes| + |images| && s.writes[..|writes|] == writes
      ensures dirCreated ==> forall k :: 0 <= k < |images| ==>
        s.writes[|writes| + k] == Saved(seqNo + k + 1, images[k])
      ensures !dirCreated ==> s.seqNo == seqNo && s.writes == writes
      ensures Valid(c) ==> s.Valid(c)
    {
      if dirCreated then
        var s := this.(seqNo := seqNo + |images|, images := [],
                       writes := writes + FlushWrites(c, seqNo, images));
        FlushExtends(c, this, s);
        s
      else
        this.(images := [])
    }

    /** `start`, capture.rs:106. */
    function Start(): (s: State)
      ensures s.enabled && s.seqNo == seqNo && s.images == images && s.writes == writes
    {
      this.(enabled := true)
    }

    /** `stop`, capture.rs:109-114: flushes only when recording, always ends disabled. */
    function Stop(c: Config, dirCreated: bool): (s: State)
      ensures !s.enabled
      ensures !enabled ==> s == this
      ensures enabled ==> s == Flush(c, dirCreated).(enabled := false)
      ensures Valid(c) ==> s.Valid(c)
    {
      (if enabled then Flush(c, dirCreated) else this).(enabled := false)
    }

    /** `toggle`, capture.rs:118-124. */
    function Toggle(c: Config, dirCreated: bool): (s: State)
      ensures s.enabled == !enabled
      ensures !enabled ==> s == this.(enabled := true)
      ensures enabled ==> s == Flush(c, dirCreated).(enabled := false)
      ensures Valid(c) ==> s.Valid(c)
    {
      if enabled then Stop(c, dirCreated) else Start()
    }

    /** `enable`, capture.rs:99-103: acts only on a change of state. */
    function Enable(c: Config, on: bool, dirCreated: bool): (s: State)
      ensures s.enabled == on
      ensures on == enabled ==> s == this
      ensures on && !enabled ==> s == this.(enabled := true)
      ensures !on && enabled ==> s == Flush(c, dirCreated).(enabled := false)
      ensures Valid(c) ==> s.Valid(c)
    {
      if on != enabled then Toggle(c, dirCreated) else this
    }

    function Apply(c: Config, op: Op): State
    {
      match op
      case ScreenGrab(readback) => Grab(c, readback)
      case Start => Start()
      case Stop(d) => Stop(c, d)
      case Toggle(d) => Toggle(c, d)
      case Enable(on, d) => Enable(c, on, d)
    }

    /** The state after the operations `ops`, first to last. */
    function Run(c: Config, ops: seq<Op>): State
      decreases |ops|
    {
      if ops == [] then this else Apply(c, ops[0]).Run(c, ops[1..])
    }
  }

  /** `init`, capture.rs:30-38. */
  function Initial(): (s: State)
    ensures s.seqNo == 0 && !s.enabled && s.images == [] && s.writes == []
  {
    State(0, false, [], [])
  }

  lemma InitialValid(c: Config)
    ensures Initial().Valid(c)
  {
  }

  /** One operation never lowers the sequence number and never takes back a write. */
  lemma ApplyGrows(c: Config, s: State, op: Op)
    ensures s.Apply(c, op).seqNo >= s.seqNo
    ensures s.writes <= s.Apply(c, op).writes
  {
    if op.Stop? || op.Toggle? || op.Enable? {
      var d := op.dirCreated;
      assert s.writes <= s.Flush(c, d).writes;
    }
  }

  /** The sequence number never decreases, so numbering carries on across stop/start cycles. */
  lemma {:induction false} RunGrows(c: Config, s: State, ops: seq<Op>)
    ensures s.Run(c, ops).seqNo >= s.seqNo
    ensures s.writes <= s.Run(c, ops).writes
    decreases |ops|
  {
    if ops != [] {
      ApplyGrows(c, s, ops[0]);
      RunGrows(c, s.Apply(c, ops[0]), ops[1..]);
    }
  }

  lemma {:induction false} RunKeepsValid(c: Config, s: State, ops: seq<Op>)
    requires s.Valid(c)
    requires forall k :: 0 <= k < |ops| ==> Fits(c, ops[k])
    ensures s.Run(c, ops).Valid(c)
    decreases |ops|
  {
    if ops != [] {
      var t := s.Apply(c, ops[0]);
      assert Fits(c, ops[0]);
      assert t.Valid(c);
      RunKeepsValid(c, t, ops[1..]);
    }
  }

  /** Nothing in the subsystem adds a pending image: from a state with none, every run
      of operations still has none, so a flush from a reachable state saves nothing. */
  lemma {:induction false} NothingPending(c: Config, s: State, ops: seq<Op>)
    requires s.images == []
    ensures s.Run(c, ops).images == []
    decreases |ops|
  {
    if ops != [] {
      var t := s.Apply(c, ops[0]);
      assert t.images == [] by {
        if ops[0].ScreenGrab? || ops[0].Start? {
          assert t.images == s.images;
        }
      }
      NothingPending(c, t, ops[1..]);
    }
  }

  /** No two writes ever target the same file. */
  lemma DistinctPaths(c: Config, s: State, i: nat, j: nat)
    requires s.Valid(c) && i < j < |s.writes|
    ensures s.writes[i].Path(c) != s.writes[j].Path(c)
  {
    assert s.writes[i].frame == i + 1 && s.writes[j].frame == j + 1;
    FramePathInjective(c, i + 1, j + 1);
  }

  /** Different frame numbers are written to different files. */
  lemma FramePathInjective(c: Config, m: nat, n: nat)
    requires m != n
    ensures c.FramePath(m) != c.FramePath(n)
  {
    if c.FramePath(m) == c.FramePath(n) {
      FrameNameKind(c.prefix, m);
      FrameNameKind(c.prefix, n);
      JoinInjective(c.path, FrameName(c.prefix, m), FrameName(c.prefix, n));
      FrameNameInjective(c.prefix, m, n);
      assert false;
    }
  }

  /** `enable(b)` twice in a row acts once: the second call finds the state already `b`. */
  lemma EnableTwice(c: Config, s: State, on: bool, d1: bool, d2: bool)
    ensures s.Enable(c, on, d1).Enable(c, on, d2) == s.Enable(c, on, d1)
  {
  }

  /** Recording turned on and one grab: the first file is `<prefix>00000001.png`. */
  lemma FirstGrabName(c: Config, readback: seq<byte>)
    ensures Initial().Start().Grab(c, readback).writes
         == [Spawned(1, readback)]
    ensures Spawned(1, readback).Path(c) == Join(c.path, c.prefix + "00000001.png")
  {
    assert Decimal(1) == "1";
    assert Zeros(7) == "0000000" by {
      assert Zeros(1) == "0";
      assert Zeros(2) == "00";
      assert Zeros(3) == "000";
      assert Zeros(4) == "0000";
      assert Zeros(5) == "00000";
      assert Zeros(6) == "000000";
    }
    assert Padded(1) == "00000001";
    assert FrameName(c.prefix, 1) == c.prefix + "00000001.png";
  }

  class Capture {
    const capturePath: string
    const capturePrefix: string
    const w: nat
    const h: nat
    var seqNo: nat
    var enabled: bool
    var images: seq<Image>
    var writes: seq<Write>

    function Settings(): Config
    {
      Config(capturePath, capturePrefix, w, h)
    }

    function Model(): State
      reads this
    {
      State(seqNo, enabled, images, writes)
    }

    ghost predicate Valid()
      reads this
    {
      Model().Valid(Settings())
    }

    /** `Capture::init`: the folder and timestamp name the capture directory; the window
        size, read once here, is the size of every capture. */
    constructor Init(folder: string, timestamp: string, prefix: string, width: nat, height: nat)
      ensures capturePath == Join(folder, timestamp) && capturePrefix == prefix
      ensures w == width && h == height
      ensures Model() == Initial() && Valid()
    {
      capturePath := Join(folder, timestamp);
      capturePrefix := prefix;
      w, h := width, height;
      seqNo := 0;
      enabled := false;
      images := [];
      writes := [];
    }

    method ScreenGrab(readback: seq<byte>)
      requires Valid() && |readback| == BufferSize(w, h)
      modifies this
      ensures Valid() && Model() == old(Model()).Grab(Settings(), readback)
    {
      if enabled {
        var buf := readback;
        seqNo := seqNo + 1;
        writes := writes + [Spawned(seqNo, buf)];
      }
      assert Model() == old(Model()).Grab(Settings(), readback);
    }

    method Flush(dirCreated: bool)
      requires Valid()
      modifies this
      ensures Valid() && Model() == old(Model()).Flush(Settings(), dirCreated)
    {
      if dirCreated {
        for k := 0 to |images|
          invariant images == old(images) && enabled == old(enabled)
          invariant seqNo == old(seqNo) + k
          invariant writes == old(writes) + FlushWrites(Settings(), old(seqNo), images[..k])
        {
          seqNo := seqNo + 1;
          ghost var done := images[..k + 1];
          assert done[..k] == images[..k] && done[k] == images[k];
          assert FlushWrites(Settings(), old(seqNo), done)
              == FlushWrites(Settings(), old(seqNo), images[..k]) + [Saved(seqNo, images[k])];
          writes := writes + [Saved(seqNo, images[k])];
        }
        assert images[..|images|] == images;
      }
      images := [];
      assert Model() == old(Model()).Flush(Settings(), dirCreated);
    }

    method Enable(on: bool, dirCreated: bool)
      requires Valid()
      modifies this
      ensures Valid() && Model() == old(Model()).Enable(Settings(), on, dirCreated)
    {
      if on != enabled {
        Toggle(dirCreated);
      }
    }

    method Start()
      requires Valid()
      modifies this
      ensures Valid() && Model() == old(Model()).Start()
    {
      enabled := true;
    }

    method Stop(dirCreated: bool)
      requires Valid()
      modifies this
      ensures Valid() && Model() == old(Model()).Stop(Settings(), dirCreated)
    {
      if enabled {
        Flush(dirCreated);
      }
      enabled := false;
    }

    method Enabled() returns (on: bool)
      ensures on == enabled
    {
      on := enabled;
    }

    method Toggle(dirCreated: bool)
      requires Valid()
      modifies this
      ensures Valid() && Model() == old(Model()).Toggle(Settings(), dirCreated)
    {
      if enabled {
        Stop(dirCreated);
      } else {
        Start();
      }
    }
  }
}
