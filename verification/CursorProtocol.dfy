/** The cursor's sequence lock with every step of writer and reader interleaved. */
module CursorProtocol {
  import opened Prelude
  import opened Counting
  import opened Cursor

  datatype Writer =
    | Idle
    | StoreField(s: Source, f: nat)           // fields 0 to 4 of the header
    | StoreByte(s: Source, row: nat, b: nat)

  datatype Accepted = Accepted(shape: Shape, generation: nat)

  /** `began` is the generation when the call began (history). */
  datatype Reader =
    | Away
    | LoadFirst(began: nat, bufLen: nat, tries: nat)
    | ReadField(began: nat, bufLen: nat, tries: nat, g1: nat, f: nat, h: Header)
    | CopyByte(began: nat, bufLen: nat, tries: nat, g1: nat, h: Header, buf: seq<u8>)
    | LoadAgain(began: nat, bufLen: nat, tries: nat, g1: nat, h: Header, buf: seq<u8>)
    | Done(began: nat, result: Option<Accepted>)

  datatype State = State(
    generation: nat, header: Header, data: seq<u8>, writer: Writer, reader: Reader,
    published: seq<Source>)   // history

  datatype Action = Write(s: Source) | WriterStep | Read(bufLen: nat) | ReaderStep | Return

  predicate Sized(st: State) {
    && |st.data| == SHAPE_BYTES
    && (st.writer.StoreField? || st.writer.StoreByte? ==> st.writer.s.Valid())
    && (st.writer.StoreByte? ==> st.writer.row <= st.writer.s.header.height && st.writer.b <= st.writer.s.RowBytes())
    && (st.reader.CopyByte? ==> |st.reader.buf| <= st.reader.h.Bytes() <= SHAPE_BYTES)
  }

  predicate Enabled(st: State, a: Action) {
    match a
    case Write(s) => st.writer.Idle? && s.Valid()
    case WriterStep => !st.writer.Idle?
    case Read(_) => st.reader.Away?
    case ReaderStep => !st.reader.Away? && !st.reader.Done?
    case Return => st.reader.Done?
  }

  function WithField(h: Header, f: nat, from: Header): Header {
    if f == 0 then h.(kind := from.kind)
    else if f == 1 then h.(width := from.width)
    else if f == 2 then h.(height := from.height)
    else if f == 3 then h.(hotspotX := from.hotspotX)
    else h.(hotspotY := from.hotspotY)
  }

  function WriterNext(st: State): State
    requires Sized(st) && !st.writer.Idle?
  {
    match st.writer
    case StoreField(s, f) =>
      st.(header := WithField(st.header, f, s.header),
          writer := if f < 4 then StoreField(s, f + 1) else StoreByte(s, 0, 0))
    case StoreByte(s, row, b) =>
      if row == s.header.height then
        st.(generation := st.generation + 1, writer := Idle, published := st.published + [s])
      else if b == s.RowBytes() then st.(writer := StoreByte(s, row + 1, 0))
      else
        PlaceFits(s, row, b);
        st.(data := st.data[Place(s, row, b) := SourceByte(s, row, b)], writer := StoreByte(s, row, b + 1))
  }

  function Again(r: Reader, tries: nat): Reader
    requires !r.Away? && !r.Done?
  {
    if tries + 1 < SHAPE_RETRIES then LoadFirst(r.began, r.bufLen, tries + 1) else Done(r.began, None)
  }

  function ReaderNext(st: State): Reader
    requires Sized(st) && Enabled(st, ReaderStep)
  {
    match st.reader
    case LoadFirst(began, bufLen, tries) =>
      var g1 := st.generation;
      if g1 == 0 then Done(began, None)
      else if g1 % 2 != 0 then Again(st.reader, tries)
      else ReadField(began, bufLen, tries, g1, 0, Header(0, 0, 0, 0, 0))
    case ReadField(began, bufLen, tries, g1, f, h) =>
      if f < 5 then ReadField(began, bufLen, tries, g1, f + 1, WithField(h, f, st.header))
      else if h.Bytes() == 0 || h.Bytes() > bufLen || h.Bytes() > SHAPE_BYTES then Done(began, None)
      else CopyByte(began, bufLen, tries, g1, h, [])
    case CopyByte(began, bufLen, tries, g1, h, buf) =>
      if |buf| < h.Bytes() then CopyByte(began, bufLen, tries, g1, h, buf + [st.data[|buf|]])
      else LoadAgain(began, bufLen, tries, g1, h, buf)
    case LoadAgain(began, bufLen, tries, g1, h, buf) =>
      if st.generation == g1 then Done(began, Some(Accepted(Shape(h, buf), g1))) else Again(st.reader, tries)
  }

  function Next(st: State, a: Action): State
    requires Sized(st) && Enabled(st, a)
  {
    match a
    case Write(s) => st.(generation := st.generation + 1, writer := StoreField(s, 0))
    case WriterStep => WriterNext(st)
    case Read(bufLen) => st.(reader := LoadFirst(st.generation, bufLen, 0))
    case ReaderStep => st.(reader := ReaderNext(st))
    case Return => st.(reader := Away)
  }

  ghost predicate Initial(st: State) {
    st.generation == 0 && |st.data| == SHAPE_BYTES && st.writer.Idle? && st.reader.Away? && st.published == []
  }

  ghost predicate Follows(states: seq<State>, actions: seq<Action>, i: nat)
    requires i < |actions| && |states| == |actions| + 1
  {
    Sized(states[i]) && Enabled(states[i], actions[i]) && states[i + 1] == Next(states[i], actions[i])
  }

  ghost predicate IsRun(states: seq<State>, actions: seq<Action>) {
    && |states| == |actions| + 1
    && Initial(states[0])
    && forall i :: 0 <= i < |actions| ==> Follows(states, actions, i)
  }

  // ----- the invariant -----

  /** The first f fields agree. */
  predicate FieldsAgree(h: Header, k: Header, f: nat) {
    && (f > 0 ==> h.kind == k.kind) && (f > 1 ==> h.width == k.width) && (f > 2 ==> h.height == k.height)
    && (f > 3 ==> h.hotspotX == k.hotspotX) && (f > 4 ==> h.hotspotY == k.hotspotY)
  }

  ghost predicate Is(shape: Shape, s: Source) { s.Valid() && shape.header == s.header && IsCompaction(s, shape.bytes) }

  /** Between rewrites the section is the last published shape; during one it is being built up. */
  ghost predicate WriterInv(st: State)
    requires Sized(st)
  {
    && (forall k :: 0 <= k < |st.published| ==> st.published[k].Valid())
    && st.generation == 2 * |st.published| + (if st.writer.Idle? then 0 else 1)
    && match st.writer
       case Idle =>
         st.published != [] ==>
           var s := st.published[|st.published| - 1];
           s.header.Bytes() <= SHAPE_BYTES && Is(Shape(st.header, st.data[..s.header.Bytes()]), s)
       case StoreField(s, f) => f <= 4 && FieldsAgree(st.header, s.header, f)
       case StoreByte(s, row, b) => st.header == s.header && Copied(s, st.data, row, b)
  }

  /** While the generation the reader saw still stands, what it has read is what the section holds. */
  ghost predicate ReaderInv(st: State) {
    match st.reader
    case Away => true
    case LoadFirst(began, _, _) => began <= st.generation
    case ReadField(began, _, _, g1, f, h) =>
      && began <= g1 <= st.generation && g1 % 2 == 0 && 0 < g1 && f <= 5
      && (st.generation == g1 ==> FieldsAgree(h, st.header, f))
    case CopyByte(began, _, _, g1, h, buf) =>
      && began <= g1 <= st.generation && g1 % 2 == 0 && 0 < g1
      && (st.generation == g1 ==> h == st.header && buf <= st.data)
    case LoadAgain(began, _, _, g1, h, buf) =>
      && began <= g1 <= st.generation && g1 % 2 == 0 && 0 < g1 && |buf| == h.Bytes() <= SHAPE_BYTES
      && (st.generation == g1 ==> h == st.header && buf <= st.data)
    case Done(began, result) => result.Some? ==> AcceptedOk(st.published, began, result.value)
  }

  ghost predicate AcceptedOk(published: seq<Source>, began: nat, a: Accepted) {
    && began <= a.generation && a.generation % 2 == 0
    && 1 <= a.generation / 2 <= |published|
    && Is(a.shape, published[a.generation / 2 - 1])
  }

  ghost predicate Inv(st: State) { Sized(st) && WriterInv(st) && ReaderInv(st) }

  lemma WriterKeepsInv(st: State)
    requires Inv(st) && !st.writer.Idle?
    ensures Inv(WriterNext(st))
  {
    if st.writer.StoreByte? {
      var s, row, b := st.writer.s, st.writer.row, st.writer.b;
      PlaceFits(s, 0, 0);
      if row == s.header.height {
        CopiedToTheEnd(s, st.data, b);
        AllRowsDone(s, st.data);
      } else if b == s.RowBytes() {
        RowDone(s, st.data, row);
      } else {
        PlaceFits(s, row, b);
        CopyOne(s, st.data, row, b);
      }
    }
  }

  lemma CopiedToTheEnd(s: Source, data: seq<u8>, b: nat)
    requires s.Valid() && Copied(s, data, s.header.height, b)
    ensures Copied(s, data, s.header.height, 0)
  {
  }

  /** What an even generation stands for. */
  lemma QuietShape(st: State, h: Header, buf: seq<u8>)
    requires Sized(st) && WriterInv(st) && st.generation % 2 == 0 && 0 < st.generation
    requires h == st.header && buf <= st.data && |buf| == h.Bytes()
    ensures st.generation == 2 * |st.published| && st.published != []
    ensures Is(Shape(h, buf), st.published[|st.published| - 1])
  {
    var s := st.published[|st.published| - 1];
    assert buf == st.data[..s.header.Bytes()];
  }

  lemma CopyingKeepsInv(st: State)
    requires Inv(st) && st.reader.CopyByte?
    ensures Inv(st.(reader := ReaderNext(st)))
  {
    var r := st.reader;
    if |r.buf| < r.h.Bytes() && r.buf <= st.data {
      assert r.buf + [st.data[|r.buf|]] == st.data[..|r.buf| + 1];
    }
  }

  lemma AcceptingKeepsInv(st: State)
    requires Inv(st) && st.reader.LoadAgain?
    ensures Inv(st.(reader := ReaderNext(st)))
  {
    if st.generation == st.reader.g1 { QuietShape(st, st.reader.h, st.reader.buf); }
  }

  lemma LookingKeepsInv(st: State)
    requires Inv(st) && (st.reader.LoadFirst? || st.reader.ReadField?)
    ensures Inv(st.(reader := ReaderNext(st)))
  {
  }

  lemma ReaderKeepsInv(st: State)
    requires Inv(st) && Enabled(st, ReaderStep)
    ensures Inv(st.(reader := ReaderNext(st)))
  {
    if st.reader.CopyByte? { CopyingKeepsInv(st); }
    else if st.reader.LoadAgain? { AcceptingKeepsInv(st); }
    else { LookingKeepsInv(st); }
  }

  lemma StepKeepsInv(st: State, a: Action)
    requires Inv(st) && Enabled(st, a)
    ensures Inv(Next(st, a))
  {
    match a {
      case WriterStep => WriterKeepsInv(st);
      case ReaderStep => ReaderKeepsInv(st);
      case _ =>
    }
  }

  lemma RunsKeepInv(states: seq<State>, actions: seq<Action>, i: nat)
    requires IsRun(states, actions) && i < |states|
    ensures Inv(states[i])
  {
    for k := 0 to i
      invariant Inv(states[k])
    {
      assert Follows(states, actions, k);
      StepKeepsInv(states[k], actions[k]);
    }
  }

  /**
   An accepted copy is exactly one published shape: its header comes from a single write, every row is
   the source row of that write, and that write is no older than the newest one complete when the call
   began.
   */
  lemma AcceptedCopyIsOneShape(states: seq<State>, actions: seq<Action>, i: nat)
    requires IsRun(states, actions) && i < |states|
    requires states[i].reader.Done? && states[i].reader.result.Some?
    ensures var a, published := states[i].reader.result.value, states[i].published;
            && a.generation % 2 == 0 && 1 <= a.generation / 2 <= |published|
            && a.generation >= states[i].reader.began
            && var s := published[a.generation / 2 - 1];
               && s.Valid() && a.shape.header == s.header
               && |a.shape.bytes| == s.header.height * s.RowBytes()
               && forall r: nat, b: nat :: r < s.header.height && b < s.RowBytes() ==>
                    InPlace(s, a.shape.bytes, r, b)
  {
    RunsKeepInv(states, actions, i);
    var a := states[i].reader.result.value;
    BytesByRow(states[i].published[a.generation / 2 - 1]);
  }

  // ----- a call the writer does not disturb -----

  /** What an undisturbed call should come back with: the newest shape, if one is complete and fits. */
  predicate Readable(st: State, bufLen: nat) {
    st.generation % 2 == 0 && st.generation > 0 && 0 < st.header.Bytes() <= bufLen
    && st.header.Bytes() <= SHAPE_BYTES == |st.data|
  }

  predicate RightAnswer(st: State, bufLen: nat, result: Option<Accepted>) {
    if Readable(st, bufLen) then result == Some(Accepted(Shape(st.header, st.data[..st.header.Bytes()]), st.generation))
    else result.None?
  }

  /** How far an undisturbed call can be. */
  predicate QuietReader(st: State, bufLen: nat, r: Reader) {
    match r
    case Away => false
    case LoadFirst(_, len, tries) => len == bufLen && tries < SHAPE_RETRIES && (tries > 0 ==> st.generation % 2 == 1)
    case ReadField(_, len, _, g1, f, h) =>
      len == bufLen && g1 == st.generation && g1 % 2 == 0 && g1 > 0 && f <= 5 && FieldsAgree(h, st.header, f)
    case CopyByte(_, len, _, g1, h, buf) =>
      len == bufLen && g1 == st.generation && h == st.header && buf <= st.data && |buf| <= h.Bytes()
      && Readable(st, bufLen)
    case LoadAgain(_, len, _, g1, h, buf) =>
      len == bufLen && g1 == st.generation && h == st.header && buf <= st.data && |buf| == h.Bytes()
      && Readable(st, bufLen)
    case Done(_, result) => RightAnswer(st, bufLen, result)
  }

  /** The steps an undisturbed call has left, at most. */
  function StepsLeft(st: State, r: Reader): nat {
    match r
    case Away => 0
    case LoadFirst(_, _, tries) =>
      if st.generation % 2 == 0 then 9 + st.header.Bytes() else SHAPE_RETRIES - (if tries < SHAPE_RETRIES then tries else 0)
    case ReadField(_, _, _, _, f, _) => if f <= 5 then 8 - f + st.header.Bytes() else 0
    case CopyByte(_, _, _, _, _, buf) => if |buf| <= st.header.Bytes() then 2 + st.header.Bytes() - |buf| else 0
    case LoadAgain(_, _, _, _, _, _) => 1
    case Done(_, _) => 0
  }

  /** Only the reader has moved since. */
  predicate OnlyReads(start: State, st: State) { st == start.(reader := st.reader) }

  lemma QuietStep(start: State, st: State, bufLen: nat)
    requires Inv(st) && Enabled(st, ReaderStep) && OnlyReads(start, st) && QuietReader(start, bufLen, st.reader)
    ensures QuietReader(start, bufLen, ReaderNext(st)) && StepsLeft(start, ReaderNext(st)) < StepsLeft(start, st.reader)
    ensures OnlyReads(start, Next(st, ReaderStep)) && Next(st, ReaderStep).reader == ReaderNext(st)
  {
    var r := st.reader;
    if r.CopyByte? && |r.buf| < r.h.Bytes() {
      assert r.buf + [st.data[|r.buf|]] == st.data[..|r.buf| + 1];
    }
    if r.LoadAgain? { assert r.buf == st.data[..st.header.Bytes()]; }
  }

  /** From step i on, the reader makes one call and the writer does nothing. */
  predicate UndisturbedCall(actions: seq<Action>, i: nat, j: nat, bufLen: nat) {
    && i < j <= |actions| && actions[i] == Read(bufLen)
    && forall k :: i < k < j ==> actions[k] == ReaderStep
  }

  lemma QuietCall(states: seq<State>, actions: seq<Action>, i: nat, j: nat, bufLen: nat)
    requires IsRun(states, actions) && UndisturbedCall(actions, i, j, bufLen)
    ensures OnlyReads(states[i], states[j])
    ensures QuietReader(states[i], bufLen, states[j].reader)
    ensures StepsLeft(states[i], states[j].reader) + (j - i - 1) <= 9 + states[i].header.Bytes()
  {
    assert Follows(states, actions, i);
    for k := i + 1 to j
      invariant OnlyReads(states[i], states[k])
      invariant QuietReader(states[i], bufLen, states[k].reader)
      invariant StepsLeft(states[i], states[k].reader) + (k - i - 1) <= 9 + states[i].header.Bytes()
    {
      assert Follows(states, actions, k);
      RunsKeepInv(states, actions, k);
      QuietStep(states[i], states[k], bufLen);
    }
  }

  /**
   A call during which the writer takes no step is over within a fixed number of its own steps, and
   comes back with the newest published shape exactly when one is published, none is being written and
   it fits the caller's buffer.
   */
  lemma QuietReadSucceeds(states: seq<State>, actions: seq<Action>, i: nat, j: nat, bufLen: nat)
    requires IsRun(states, actions) && UndisturbedCall(actions, i, j, bufLen)
    ensures j - i > 9 + states[i].header.Bytes() ==> states[j].reader.Done?
    ensures states[j].reader.Done? ==>
              var published, result := states[i].published, states[j].reader.result;
              if states[i].writer.Idle? && published != [] && published[|published| - 1].header.Bytes() <= bufLen
              then result.Some? && Is(result.value.shape, published[|published| - 1])
              else result.None?
  {
    RunsKeepInv(states, actions, i);
    QuietCall(states, actions, i, j, bufLen);
    NewestFits(states[i]);
  }

  /** With the writer idle the section is readable as soon as anything was published. */
  lemma NewestFits(st: State)
    requires Inv(st)
    ensures st.generation % 2 == 0 && st.generation > 0 <==> st.writer.Idle? && st.published != []
    ensures st.writer.Idle? && st.published != [] ==>
              var s := st.published[|st.published| - 1];
              && st.header == s.header && 0 < st.header.Bytes() <= SHAPE_BYTES
              && Is(Shape(st.header, st.data[..st.header.Bytes()]), s)
  {
    if st.writer.Idle? && st.published != [] {
      var s := st.published[|st.published| - 1];
      PlaceFits(s, 0, 0);
    }
  }

  // ----- when a call gives up -----

  predicate Reading(r: Reader) { r.LoadFirst? || r.ReadField? || r.CopyByte? || r.LoadAgain? }

  /** A rewrite is under way, or one has intervened. */
  predicate Disturbs(st: State, a: Action) {
    && a.ReaderStep?
    && ((st.reader.LoadFirst? && st.generation % 2 != 0) || (st.reader.LoadAgain? && st.generation != st.reader.g1))
  }

  ghost function Disturbances(states: seq<State>, actions: seq<Action>): seq<bool>
    requires |states| == |actions| + 1
  {
    seq(|actions|, k requires 0 <= k < |actions| => Disturbs(states[k], actions[k]))
  }

  predicate TriesAre(r: Reader, count: nat) {
    Reading(r) ==> r.tries == count < SHAPE_RETRIES
  }

  lemma OneTry(st: State, a: Action, count: nat)
    requires Sized(st) && Enabled(st, a) && Reading(st.reader) && TriesAre(st.reader, count)
    ensures TriesAre(Next(st, a).reader, if Disturbs(st, a) then count + 1 else count)
    ensures Next(st, a).reader.Done? && Next(st, a).reader.result.None? ==>
              || (st.reader.LoadFirst? && st.generation == 0)
              || (st.reader.ReadField? && st.reader.f >= 5
                  && (st.reader.h.Bytes() == 0 || st.reader.h.Bytes() > st.reader.bufLen || st.reader.h.Bytes() > SHAPE_BYTES))
              || (Disturbs(st, a) && count + 1 == SHAPE_RETRIES)
  {
  }

  /** The reader was called at step i and is still at it at step n. */
  ghost predicate InCall(states: seq<State>, actions: seq<Action>, i: nat, n: nat) {
    && i < n < |states| && i < |actions| && actions[i].Read?
    && forall k :: i < k <= n ==> Reading(states[k].reader)
  }

  lemma {:induction false} TriesAreCounted(states: seq<State>, actions: seq<Action>, i: nat, n: nat)
    requires IsRun(states, actions) && InCall(states, actions, i, n)
    ensures TriesAre(states[n].reader, Count(Disturbances(states, actions), i, n))
    decreases n
  {
    assert Follows(states, actions, n - 1);
    if n > i + 1 {
      TriesAreCounted(states, actions, i, n - 1);
      OneTry(states[n - 1], actions[n - 1], Count(Disturbances(states, actions), i, n - 1));
    } else {
      assert Count(Disturbances(states, actions), i, i) == 0;
    }
  }

  /**
   A call comes back with nothing for one of three reasons only: nothing was ever published; the header it
   read asks for no bytes or more than fit; or a rewrite disturbed it eight times.
   */
  lemma CallGivesUpOnlyDisturbed(states: seq<State>, actions: seq<Action>, i: nat, n: nat)
    requires IsRun(states, actions) && InCall(states, actions, i, n) && n < |actions|
    requires states[n + 1].reader.Done? && states[n + 1].reader.result.None?
    ensures var r := states[n].reader;
            || (states[n].published == [] && states[n].writer.Idle?)
            || (r.ReadField? && (r.h.Bytes() == 0 || r.h.Bytes() > r.bufLen || r.h.Bytes() > SHAPE_BYTES))
            || Count(Disturbances(states, actions), i, n + 1) == 8
  {
    RunsKeepInv(states, actions, n);
    assert Follows(states, actions, n);
    TriesAreCounted(states, actions, i, n);
    OneTry(states[n], actions[n], Count(Disturbances(states, actions), i, n));
  }
}
