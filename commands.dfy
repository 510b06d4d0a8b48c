/**
 * The serial command recogniser `is_command_read`, stated on the bytes that
 * wait in the serial receive buffer, and the Arduino `Stream::find` it calls.
 */
module Commands {
  import opened Wrappers

  type Byte = b: int | 0 <= b < 256

  /** A command byte seen through a plain `char`, which is signed on AVR. */
  function CharValue(b: Byte): (v: int)
    ensures -128 <= v < 128
    ensures v == b <==> b < 128
    ensures 128 <= b ==> v < 0
  {
    if b < 128 then b else b - 256
  }

  /** `command[0]` of a C string: the terminating NUL when the command is empty. */
  function FirstChar(command: seq<Byte>): (c: int)
    ensures -128 <= c < 128
    ensures command == [] ==> c == 0
    ensures command != [] ==> (c == command[0] <==> command[0] < 128)
  {
    if command == [] then 0 else CharValue(command[0])
  }

  predicate OccursAt(s: seq<Byte>, c: seq<Byte>, i: nat) {
    i + |c| <= |s| && s[i..i + |c|] == c
  }

  /** `c` occurs at `i` in `s` and at no earlier position. */
  predicate FirstOccurrence(s: seq<Byte>, c: seq<Byte>, i: nat) {
    OccursAt(s, c, i) && forall j :: 0 <= j < i ==> !OccursAt(s, c, j)
  }

  lemma OccursAtTail(s: seq<Byte>, c: seq<Byte>, j: nat)
    requires 1 <= j && 1 <= |s|
    ensures OccursAt(s, c, j) <==> OccursAt(s[1..], c, j - 1)
  {
  }

  /** The first position at which `c` occurs in `s`, if any. */
  function IndexOf(s: seq<Byte>, c: seq<Byte>): (r: Option<nat>)
    ensures r.Some? ==> FirstOccurrence(s, c, r.value)
    ensures r.None? ==> forall j :: 0 <= j <= |s| ==> !OccursAt(s, c, j)
    decreases |s|
  {
    if OccursAt(s, c, 0) then Some(0)
    else if s == [] then None
    else
      var r := IndexOf(s[1..], c);
      forall j | 1 <= j <= |s| ensures OccursAt(s, c, j) <==> OccursAt(s[1..], c, j - 1) {
        OccursAtTail(s, c, j);
      }
      if r.None? then None else Some(r.value + 1)
  }

  /** What a stream operation reports, and the bytes still waiting after it. */
  datatype Scan = Scan(found: bool, rest: seq<Byte>)

  /**
   * Arduino `Stream::find(target)`: reads bytes until `target` has gone by and
   * returns true, or reads until no byte is left (its timeout) and returns false.
   */
  function Find(pending: seq<Byte>, target: seq<Byte>): (r: Scan)
    ensures r.found <==> exists i :: 0 <= i <= |pending| && OccursAt(pending, target, i)
    ensures r.found ==> exists i: nat :: FirstOccurrence(pending, target, i) && r.rest == pending[i + |target|..]
    ensures !r.found ==> r.rest == []
  {
    match IndexOf(pending, target)
    case Some(i) => Scan(true, pending[i + |target|..])
    case None => Scan(false, [])
  }

  /** `Serial.read()`: removes the next byte; on an empty buffer it removes nothing. */
  function DropOne(pending: seq<Byte>): (rest: seq<Byte>)
    ensures |rest| == if pending == [] then 0 else |pending| - 1
    ensures rest == pending[|pending| - |rest|..]
  {
    if pending == [] then [] else pending[1..]
  }

  /** `Stream::find` only ever takes bytes from the front. */
  lemma FindLeavesSuffix(pending: seq<Byte>, target: seq<Byte>)
    ensures var rest := Find(pending, target).rest;
      |rest| <= |pending| && rest == pending[|pending| - |rest|..]
  {
    match IndexOf(pending, target)
    case Some(i) =>
      assert |pending[i + |target|..]| == |pending| - (i + |target|);
    case None =>
  }

  /**
   * An ASCII command waiting at the very front starts with the byte that
   * `FirstChar` peeks for, and `Stream::find` stops right after it.
   */
  lemma FindAtFront(pending: seq<Byte>, command: seq<Byte>)
    ensures command != [] && command[0] < 128 && OccursAt(pending, command, 0)
        ==> pending != [] && pending[0] == FirstChar(command)
            && Find(pending, command) == Scan(true, pending[|command|..])
  {
    if command != [] && command[0] < 128 && OccursAt(pending, command, 0) {
      assert pending[0] == pending[..|command|][0];
      assert IndexOf(pending, command) == Some(0);
    }
  }

  /**
   * `is_command_read(command, consume)` on the bytes `pending`: whether the
   * command was recognised, and the bytes left waiting afterwards.
   */
  function CommandRead(pending: seq<Byte>, command: seq<Byte>, consume: bool): (r: Scan)
    // nothing waiting: no match, nothing consumed
    ensures pending == [] ==> r == Scan(false, pending)
    // a different next byte: no match, and exactly that byte dropped when consuming
    ensures pending != [] && pending[0] != FirstChar(command)
        ==> r == Scan(false, if consume then pending[1..] else pending)
    // the whole (ASCII) command waiting at the front: recognised, exactly its bytes consumed
    ensures command != [] && command[0] < 128 && OccursAt(pending, command, 0)
        ==> r == Scan(true, pending[|command|..])
    // the next byte starts the command: `Stream::find` decides, and a failed search empties the input
    ensures pending != [] && pending[0] == FirstChar(command)
        ==> (r.found <==> exists i :: 0 <= i <= |pending| && OccursAt(pending, command, i))
    ensures pending != [] && pending[0] == FirstChar(command) && !r.found ==> r.rest == []
    // a match always consumes up to the end of the first occurrence of the command
    ensures r.found ==> exists i: nat :: FirstOccurrence(pending, command, i) && r.rest == pending[i + |command|..]
    // bytes are only ever taken from the front
    ensures |r.rest| <= |pending| && r.rest == pending[|pending| - |r.rest|..]
  {
    FindAtFront(pending, command);
    FindLeavesSuffix(pending, command);
    if pending == [] then Scan(false, pending)
    else if pending[0] != FirstChar(command) then Scan(false, if consume then DropOne(pending) else pending)
    else
      var afterFind := Find(pending, command);
      if afterFind.found then afterFind
      else Scan(false, if consume then DropOne(afterFind.rest) else afterFind.rest)
  }

  /**
   * The main loop calling `is_command_read(command, true)` once per iteration,
   * for at most `n` iterations, until the command is recognised.
   */
  function Poll(pending: seq<Byte>, command: seq<Byte>, n: nat): Scan {
    if n == 0 then Scan(false, pending)
    else
      var r := CommandRead(pending, command, true);
      if r.found then r else Poll(r.rest, command, n - 1)
  }

  /**
   * Bytes that cannot start the command are dropped one per call, so a command
   * that follows them is recognised on the call after the last of them.
   */
  lemma {:induction false} RecognisedAfterNoise(noise: seq<Byte>, command: seq<Byte>, tail: seq<Byte>)
    requires command != [] && command[0] < 128
    requires forall i :: 0 <= i < |noise| ==> noise[i] != command[0]
    ensures Poll(noise + command + tail, command, |noise| + 1) == Scan(true, tail)
  {
    var pending := noise + command + tail;
    assert OccursAt(command + tail, command, 0) by { assert (command + tail)[..|command|] == command; }
    if noise == [] {
      assert pending == command + tail;
      assert (command + tail)[|command|..] == tail;
    } else {
      assert pending[0] == noise[0];
      assert pending[1..] == noise[1..] + command + tail;
      RecognisedAfterNoise(noise[1..], command, tail);
    }
  }

  // ---------------------------------------------------------------------
  // Conditions on a set of commands
  // ---------------------------------------------------------------------

  predicate IsPrefix(a: seq<Byte>, b: seq<Byte>) {
    |a| <= |b| && b[..|a|] == a
  }

  /** No command is a prefix of another. */
  predicate PrefixFree(commands: set<seq<Byte>>) {
    forall a, b :: a in commands && b in commands && a != b ==> !IsPrefix(a, b)
  }

  /** Every command is non-empty and no two commands start with the same byte. */
  predicate DistinctFirstBytes(commands: set<seq<Byte>>) {
    && (forall a :: a in commands ==> a != [])
    && (forall a, b :: a in commands && b in commands && a != b ==> a[0] != b[0])
  }

  lemma DistinctFirstBytesArePrefixFree(commands: set<seq<Byte>>)
    requires DistinctFirstBytes(commands)
    ensures PrefixFree(commands)
  {
  }

  const PAUSE: seq<Byte> := [80, 65, 85, 83, 69]  // "PAUSE"
  const PLAY: seq<Byte> := [80, 76, 65, 89]       // "PLAY"

  /** A stray byte ahead of "PAUSE" is dropped by one poll, and the next poll recognises the command. */
  lemma StrayByteBeforePause()
    ensures CommandRead([120] + PAUSE, PAUSE, true) == Scan(false, PAUSE)
    ensures CommandRead(PAUSE, PAUSE, true) == Scan(true, [])
  {
    assert FirstChar(PAUSE) == 80;
    assert OccursAt(PAUSE, PAUSE, 0);
  }

  /**
   * Prefix-freedom does not make one peeked byte enough: with "PAUSE" waiting,
   * polling for "PLAY" (even without consume) lets `Stream::find` read the whole
   * "PAUSE" away, and the poll for "PAUSE" that follows finds nothing.
   */
  lemma SharedFirstByteSwallowsCommand()
    ensures PrefixFree({PAUSE, PLAY})
    ensures CommandRead(PAUSE, PLAY, false) == Scan(false, [])
    ensures !CommandRead(CommandRead(PAUSE, PLAY, false).rest, PAUSE, true).found
  {
    assert !IsPrefix(PLAY, PAUSE) by { assert PAUSE[..4][1] != PLAY[1]; }
    forall j | 0 <= j <= |PAUSE| ensures !OccursAt(PAUSE, PLAY, j) {
      if j == 0 {
        assert PAUSE[0..4][1] != PLAY[1];
      }
    }
  }

  /**
   * When no two commands share a first byte, polling for another command
   * without consume leaves a waiting command untouched, and it is recognised
   * when its own poll comes. A consuming poll for another command still drops
   * the waiting command's first byte, so the consuming poll must come last.
   */
  lemma DistinctFirstBytesKeepCommand(commands: set<seq<Byte>>, a: seq<Byte>, b: seq<Byte>, tail: seq<Byte>)
    requires DistinctFirstBytes(commands) && a in commands && b in commands && a != b
    requires a[0] < 128
    ensures CommandRead(a + tail, b, false) == Scan(false, a + tail)
    ensures CommandRead(a + tail, a, true) == Scan(true, tail)
    ensures CommandRead(a + tail, b, true) == Scan(false, a[1..] + tail)
  {
    assert (a + tail)[1..] == a[1..] + tail;
  }
}
