/** Reading one newline-terminated reply from the daemon's Unix socket, in whatever pieces the kernel delivers it. */
module FrameReader {
  import opened Basics

  const MAX_RESPONSE_BYTES: nat := 1024 * 1024
  const CHUNK: nat := 8192
  const NEWLINE: byte := 10

  datatype ClientError = DaemonUnavailable | InvalidResponse

  /** What happens at one turn of the loop: the deadline has passed, the read fails, or up to `size` bytes arrive. */
  datatype Turn = Expired | Fails | Delivers(size: nat)

  predicate EndsWithNewline(s: seq<byte>) {
    s != [] && s[|s| - 1] == NEWLINE
  }

  function Min(a: nat, b: nat): nat {
    if a < b then a else b
  }

  /** A read into a nonempty buffer returns at least one byte until the peer's data is used up. */
  function Received(turn: Turn, room: nat, left: nat): nat
    requires turn.Delivers?
  {
    Min(Min(if turn.size == 0 then 1 else turn.size, room), left)
  }

  /** What is left to decide once no more is read. */
  function Framed(encoded: seq<byte>): Result<seq<byte>, ClientError> {
    if EndsWithNewline(encoded) && |encoded| <= MAX_RESPONSE_BYTES then Ok(encoded) else Err(InvalidResponse)
  }

  /** The reply from turn `k` on, with `n` bytes already here. */
  function Reading(data: seq<byte>, kernel: nat -> Turn, k: nat, n: nat): (r: Result<seq<byte>, ClientError>)
    requires n <= |data|
    ensures r.Ok? ==> n <= |r.value| && r.value <= data && Framed(r.value).Ok?
    decreases MAX_RESPONSE_BYTES + 1 - n
  {
    if EndsWithNewline(data[..n]) || n > MAX_RESPONSE_BYTES then Framed(data[..n])
    else if !kernel(k).Delivers? then Err(DaemonUnavailable)
    else
      var read := Received(kernel(k), Min(CHUNK, MAX_RESPONSE_BYTES + 1 - n), |data| - n);
      if read == 0 then Err(InvalidResponse) else Reading(data, kernel, k + 1, n + read)
  }

  // ---- When the pieces do not matter ----

  ghost predicate Steady(kernel: nat -> Turn) {
    forall k :: kernel(k).Delivers?
  }

  /** A newline that ends neither the data nor more than a reply may hold. */
  predicate EarlyNewline(data: seq<byte>, i: nat) {
    i < |data| - 1 && i < MAX_RESPONSE_BYTES && data[i] == NEWLINE
  }

  lemma {:induction false} WholeReply(data: seq<byte>, kernel: nat -> Turn, k: nat, n: nat)
    requires n <= |data| && Steady(kernel) && forall i: nat :: !EarlyNewline(data, i)
    ensures Reading(data, kernel, k, n) == if n > MAX_RESPONSE_BYTES then Err(InvalidResponse) else Framed(data)
    decreases MAX_RESPONSE_BYTES + 1 - n
  {
    if n > MAX_RESPONSE_BYTES {
    } else if EndsWithNewline(data[..n]) {
      assert data[n - 1] == NEWLINE && !EarlyNewline(data, n - 1);
      assert data[..n] == data;
    } else {
      var read := Received(kernel(k), Min(CHUNK, MAX_RESPONSE_BYTES + 1 - n), |data| - n);
      if read == 0 {
        assert data[..n] == data;
      } else {
        WholeReply(data, kernel, k + 1, n + read);
      }
    }
  }

  /** What can be said of every reply: in bytes, the line feed is 10 and the limit is 1048576. */
  lemma Replies(data: seq<byte>, kernel: nat -> Turn)
    ensures var r := Reading(data, kernel, 0, 0);
      && (r.Ok? ==> r.value <= data && 0 < |r.value| <= 1_048_576 && r.value[|r.value| - 1] == 10)
      && (Steady(kernel) ==> r != Err(DaemonUnavailable))
      && (!kernel(0).Delivers? ==> r == Err(DaemonUnavailable))
      && (Steady(kernel) && (forall i | 0 <= i < |data| - 1 && i < 1_048_576 :: data[i] != 10) ==>
            r == if 0 < |data| <= 1_048_576 && data[|data| - 1] == 10 then Ok(data) else Err(InvalidResponse))
  {
    if Steady(kernel) {
      NeverUnavailable(data, kernel, 0, 0);
      if forall i | 0 <= i < |data| - 1 && i < 1_048_576 :: data[i] != 10 {
        WholeReply(data, kernel, 0, 0);
      }
    }
  }

  lemma {:induction false} NeverUnavailable(data: seq<byte>, kernel: nat -> Turn, k: nat, n: nat)
    requires n <= |data| && Steady(kernel)
    ensures Reading(data, kernel, k, n) != Err(DaemonUnavailable)
    decreases MAX_RESPONSE_BYTES + 1 - n
  {
    if !EndsWithNewline(data[..n]) && n <= MAX_RESPONSE_BYTES {
      var read := Received(kernel(k), Min(CHUNK, MAX_RESPONSE_BYTES + 1 - n), |data| - n);
      if read > 0 {
        NeverUnavailable(data, kernel, k + 1, n + read);
      }
    }
  }

  /** A turn that fails before the first newline, and within the limit, makes the daemon unavailable. */
  lemma {:induction false} FailsOpen(data: seq<byte>, kernel: nat -> Turn, k: nat, n: nat)
    requires n <= k <= |data| && k <= 1_048_576 && forall i | 0 <= i < k :: data[i] != 10
    requires (forall j | n <= j < k :: kernel(j) == Delivers(1)) && !kernel(k).Delivers?
    ensures Reading(data, kernel, n, n) == Err(DaemonUnavailable)
    decreases k - n
  {
    if n < k {
      FailsOpen(data, kernel, k, n + 1);
    }
  }

  lemma ReadOn(data: seq<byte>, kernel: nat -> Turn, k: nat, n: nat, read: nat)
    requires n <= |data| && !EndsWithNewline(data[..n]) && n <= MAX_RESPONSE_BYTES && kernel(k).Delivers?
    requires read == Received(kernel(k), Min(CHUNK, MAX_RESPONSE_BYTES + 1 - n), |data| - n)
    ensures n + read <= |data| && n + read <= MAX_RESPONSE_BYTES + 1
    ensures data[..n] + data[n..n + read] == data[..n + read]
    ensures Reading(data, kernel, k, n) ==
            if read == 0 then Err(InvalidResponse) else Reading(data, kernel, k + 1, n + read)
  {
  }

  lemma ReadEnds(data: seq<byte>, kernel: nat -> Turn, k: nat, n: nat)
    requires n <= |data|
    ensures EndsWithNewline(data[..n]) || n > MAX_RESPONSE_BYTES ==>
              Reading(data, kernel, k, n) ==
              if EndsWithNewline(data[..n]) && n <= MAX_RESPONSE_BYTES then Ok(data[..n]) else Err(InvalidResponse)
    ensures !EndsWithNewline(data[..n]) && n <= MAX_RESPONSE_BYTES && !kernel(k).Delivers? ==>
              Reading(data, kernel, k, n) == Err(DaemonUnavailable)
  {
  }

  /** The peer sends `data` and closes; `kernel` says how each turn goes. Answers with the bytes to decode. */
  method ReadReply(data: seq<byte>, kernel: nat -> Turn) returns (r: Result<seq<byte>, ClientError>, peak: nat)
    ensures peak <= 1_048_577
    ensures r == Reading(data, kernel, 0, 0)
    ensures r == Err(DaemonUnavailable) ==> exists k :: !kernel(k).Delivers?
    ensures !kernel(0).Delivers? ==> r == Err(DaemonUnavailable)
    ensures r.Ok? ==> r.value <= data && 0 < |r.value| <= 1_048_576 && r.value[|r.value| - 1] == 10
    ensures Steady(kernel) && (forall i | 0 <= i < |data| - 1 && i < 1_048_576 :: data[i] != 10) ==>
              r == if 0 < |data| <= 1_048_576 && data[|data| - 1] == 10 then Ok(data) else Err(InvalidResponse)
  {
    hide Reading, Received, Min, Steady;
    Replies(data, kernel);
    var encoded: seq<byte> := [];
    var k := 0;
    peak := 0;
    while !EndsWithNewline(encoded) && |encoded| <= MAX_RESPONSE_BYTES
      invariant |encoded| <= |data| && encoded == data[..|encoded|]
      invariant |encoded| == peak <= MAX_RESPONSE_BYTES + 1
      invariant Reading(data, kernel, 0, 0) == Reading(data, kernel, k, |encoded|)
      decreases MAX_RESPONSE_BYTES + 1 - |encoded|
    {
      ReadEnds(data, kernel, k, |encoded|);
      var turn := kernel(k);
      if !turn.Delivers? {
        return Err(DaemonUnavailable), peak;
      }
      var room := Min(CHUNK, MAX_RESPONSE_BYTES + 1 - |encoded|);
      var read := Received(turn, room, |data| - |encoded|);
      ReadOn(data, kernel, k, |encoded|, read);
      if read == 0 {
        break;
      }
      encoded := encoded + data[|encoded|..|encoded| + read];
      peak := |encoded|;
      k := k + 1;
    }
    ReadEnds(data, kernel, k, |encoded|);
    if !EndsWithNewline(encoded) || |encoded| > MAX_RESPONSE_BYTES {
      return Err(InvalidResponse), peak;
    }
    return Ok(encoded), peak;
  }

  // ---- When they do ----

  /** Bytes that come singly up to the first newline end the reply there. */
  lemma {:induction false} StopsAtNewline(data: seq<byte>, kernel: nat -> Turn, i: nat, n: nat)
    requires n <= i && EarlyNewline(data, i) && forall j | 0 <= j < i :: data[j] != NEWLINE
    requires forall k | n <= k <= i :: kernel(k) == Delivers(1)
    ensures Reading(data, kernel, n, n) == Ok(data[..i + 1])
    decreases i - n
  {
    assert !EndsWithNewline(data[..n]);
    if n < i {
      StopsAtNewline(data, kernel, i, n + 1);
    } else {
      assert EndsWithNewline(data[..n + 1]);
    }
  }

  /** If instead the newline comes together with the byte after it, the reply goes on past it. */
  lemma {:induction false} PassesNewline(data: seq<byte>, kernel: nat -> Turn, i: nat, n: nat)
    requires n <= i && EarlyNewline(data, i) && forall j | 0 <= j < i :: data[j] != NEWLINE
    requires (forall k | n <= k < i :: kernel(k) == Delivers(1)) && kernel(i) == Delivers(2)
    ensures Reading(data, kernel, n, n) == Reading(data, kernel, i + 1, i + 2)
    decreases i - n
  {
    assert !EndsWithNewline(data[..n]);
    if n < i {
      PassesNewline(data, kernel, i, n + 1);
    }
  }

  lemma FirstNewline(data: seq<byte>, i: nat) returns (first: nat)
    requires EarlyNewline(data, i)
    ensures EarlyNewline(data, first) && forall j | 0 <= j < first :: data[j] != NEWLINE
  {
    first := 0;
    while data[first] != NEWLINE
      invariant first <= i && forall j | 0 <= j < first :: data[j] != NEWLINE
      decreases i - first
    {
      first := first + 1;
    }
  }

  /** The way the kernel splits what the peer sends never matters, exactly if no newline comes before the last byte. */
  lemma SplitsAgreeIff(data: seq<byte>)
    ensures (forall kernel1, kernel2 | Steady(kernel1) && Steady(kernel2) ::
               Reading(data, kernel1, 0, 0) == Reading(data, kernel2, 0, 0))
            <==> (forall i: nat :: !EarlyNewline(data, i))
  {
    hide Reading;
    if i: nat :| EarlyNewline(data, i) {
      var first := FirstNewline(data, i);
      var singly: nat -> Turn := k => Delivers(1);
      var paired: nat -> Turn := k => if k == first then Delivers(2) else Delivers(1);
      assert Steady(singly) && Steady(paired);
      StopsAtNewline(data, singly, first, 0);
      PassesNewline(data, paired, first, 0);
      assert Reading(data, singly, 0, 0) != Reading(data, paired, 0, 0);
    } else {
      forall kernel1, kernel2 | Steady(kernel1) && Steady(kernel2)
        ensures Reading(data, kernel1, 0, 0) == Reading(data, kernel2, 0, 0)
      {
        WholeReply(data, kernel1, 0, 0);
        WholeReply(data, kernel2, 0, 0);
      }
    }
  }
}
