/**
 * The rolling minibatch iterator for truncated backpropagation through time
 * (data.py). A TextBatcher keeps one read cursor per batch slot into a fixed
 * corpus of classes 0..26; a DataIter keeps a [window][batch] pair of input
 * and target buffers that it shifts left and refills from the batcher.
 */
module Data {
  import opened Wrappers
  import opened Arith
  import Codec

  /** A byte of the text file as numpy reads it with dtype '<i1'. */
  newtype Int8 = x: int | -128 <= x < 128

  /** What construction of a batcher or an iterator can fail with. */
  datatype DataError =
    | EmptyText     // the file has no bytes
    | BadText       // some byte does not reduce to a class in 0..26
    | StepTooLarge  // the step size exceeds the window size

  /** Every symbol of the corpus is one of the 27 classes. */
  predicate IsCorpus(data: seq<int>) {
    forall k | 0 <= k < |data| :: 0 <= data[k] <= 26
  }

  /** The reduction numpy applies to each signed byte: the remainder takes the sign of 32. */
  function Reduce(b: Int8): (v: int)
    ensures 0 <= v < 32
    ensures (v - b as int) % 32 == 0
  {
    b as int % 32
  }

  /**
   * Loading a text: every byte is reduced mod 32, then an empty text and a
   * text with a reduced value above 26 are refused.
   */
  function LoadCorpus(file: seq<Int8>): (r: Result<seq<int>, DataError>)
    ensures r == Failure(EmptyText) <==> |file| == 0
    ensures r == Failure(BadText) <==> 0 < |file| && exists k | 0 <= k < |file| :: Reduce(file[k]) > 26
    ensures r.Success? ==> 0 < |r.value| == |file| && IsCorpus(r.value)
    ensures r.Success? ==> forall k | 0 <= k < |file| :: r.value[k] == Reduce(file[k])
  {
    var data := seq(|file|, k requires 0 <= k < |file| => Reduce(file[k]));
    assert forall k | 0 <= k < |file| :: data[k] == Reduce(file[k]);
    if |data| == 0 then Failure(EmptyText)
    else if !IsCorpus(data) then Failure(BadText)
    else Success(data)
  }

  /**
   * The reduction maps the blank, the lower-case and the upper-case letters
   * into 0..26, folding case, and agrees there with the generator's encoding
   * of the lower-cased character.
   */
  lemma ReduceFoldsCase(c: char)
    requires c == ' ' || 'a' <= c <= 'z' || 'A' <= c <= 'Z'
    ensures 0 <= Reduce(c as int as Int8) <= 26
    ensures Reduce(c as int as Int8) == Codec.Encode(Codec.Lower(c))
    ensures Reduce(c as int as Int8) == 0 <==> c == ' '
  {
    var x := c as int;
    if c == ' ' {
      ModUnique(x, 1, 0, 32);
    } else if 'a' <= c <= 'z' {
      ModUnique(x, 3, x - 96, 32);
    } else {
      ModUnique(x, 2, x - 64, 32);
      ModUnique(x + 32, 3, x - 64, 32);
    }
  }

  /** Cursors as drawn at construction: one per slot, each in [0, n) once n is known to be positive. */
  predicate CursorsFit(cursors: seq<int>, batchSize: nat, n: nat) {
    |cursors| == batchSize && forall i | 0 <= i < batchSize :: 0 <= cursors[i] && (n == 0 || cursors[i] < n)
  }

  /**
   * The cursor update as written, `((c + s + 1) % n - 1) % n`, is the
   * advance `(c + s) % n`, also when the read wrapped past the end.
   */
  lemma CursorAdvance(c: int, s: nat, n: int)
    requires 0 < n
    ensures ((c + s + 1) % n - 1) % n == (c + s) % n
  {
    ModAdd(c + s + 1, -1, n);
  }

  class TextBatcher {
    /** The corpus, one class per byte of the file. */
    const data: seq<int>
    /** The corpus length. */
    const n: nat
    const batchSize: nat
    /** The read cursor of each batch slot. */
    var idx: seq<int>

    ghost predicate Valid()
      reads this
    {
      && n == |data| && 0 < n && IsCorpus(data)
      && |idx| == batchSize
      && forall i | 0 <= i < batchSize :: 0 <= idx[i] < n
    }

    constructor (corpus: seq<int>, batchSize: nat, cursors: seq<int>)
      requires 0 < |corpus| && IsCorpus(corpus) && CursorsFit(cursors, batchSize, |corpus|)
      ensures Valid() && data == corpus && this.batchSize == batchSize && idx == cursors
    {
      data := corpus;
      n := |corpus|;
      this.batchSize := batchSize;
      idx := cursors;
    }

    /**
     * Construction from the bytes of a file; the random initial cursors
     * are given as `cursors`.
     */
    static method Open(file: seq<Int8>, batchSize: nat, cursors: seq<int>) returns (r: Result<TextBatcher, DataError>)
      requires CursorsFit(cursors, batchSize, |file|)
      ensures r.Failure? ==> LoadCorpus(file).Failure? && r.error == LoadCorpus(file).error
      ensures r.Success? ==> LoadCorpus(file).Success? && fresh(r.value) && r.value.Valid()
      ensures r.Success? ==> r.value.data == LoadCorpus(file).value && r.value.batchSize == batchSize && r.value.idx == cursors
    {
      var loaded := LoadCorpus(file);
      if loaded.Failure? {
        return Failure(loaded.error);
      }
      var b := new TextBatcher(loaded.value, batchSize, cursors);
      return Success(b);
    }

    /**
     * Reads s + 1 symbols per slot, wrapping past the end of the corpus, and
     * advances every cursor by s. The result is the one buffer whose rows
     * 0..s-1 are the input and rows 1..s the target, one symbol ahead.
     */
    method Next(s: nat) returns (ret: array2<int>)
      requires Valid() && s + 1 <= n
      modifies this
      ensures Valid() && fresh(ret)
      ensures ret.Length0 == s + 1 && ret.Length1 == batchSize
      ensures forall k, i | 0 <= k <= s && 0 <= i < batchSize :: ret[k, i] == data[(old(idx[i]) + k) % n]
      ensures forall i | 0 <= i < batchSize :: idx[i] == (old(idx[i]) + s) % n
    {
      var cur := idx;
      ret := ReadColumns(data, cur, s);
      idx := AdvanceCursors(cur, s, n);
    }

    /** The corpus length, which iteration never changes. */
    function Size(): (r: nat)
      reads this
      requires Valid()
      ensures r == |data| && 0 < r
    {
      n
    }
  }

  /** The reads of all slots: column i holds the s + 1 symbols from cursor cur[i]. */
  method ReadColumns(data: seq<int>, cur: seq<int>, s: nat) returns (ret: array2<int>)
    requires s + 1 <= |data| && forall i | 0 <= i < |cur| :: 0 <= cur[i] < |data|
    ensures fresh(ret) && ret.Length0 == s + 1 && ret.Length1 == |cur|
    ensures forall k, i | 0 <= k <= s && 0 <= i < |cur| :: ret[k, i] == data[(cur[i] + k) % |data|]
  {
    ret := new int[s + 1, |cur|]((_, _) => 0);
    for i := 0 to |cur|
      modifies ret
      invariant forall k, j | 0 <= k <= s && 0 <= j < i :: ret[k, j] == data[(cur[j] + k) % |data|]
    {
      ReadSlot(ret, data, cur[i], s, i);
    }
  }

  /**
   * The cursor update as written: one past the end of the read, minus one,
   * mod n. Every cursor advances by s, also when its read wrapped.
   */
  function AdvanceCursors(cur: seq<int>, s: nat, n: nat): (r: seq<int>)
    requires 0 < n
    ensures Advanced(cur, r, s, n)
    ensures forall i | 0 <= i < |r| :: 0 <= r[i] < n
  {
    var r := seq(|cur|, i requires 0 <= i < |cur| => ((cur[i] + s + 1) % n - 1) % n);
    assert forall i | 0 <= i < |cur| :: r[i] == (cur[i] + s) % n by {
      forall i | 0 <= i < |cur| ensures r[i] == (cur[i] + s) % n {
        CursorAdvance(cur[i], s, n);
      }
    }
    r
  }

  /**
   * Copies the s + 1 symbols from cursor c into column i of ret: one slice
   * when the end index lies past the cursor, otherwise the tail of the corpus
   * followed by its head.
   */
  method ReadSlot(ret: array2<int>, data: seq<int>, c: int, s: nat, i: nat)
    requires 0 <= c < |data| && s + 1 <= |data|
    requires ret.Length0 == s + 1 && i < ret.Length1
    modifies ret
    ensures forall k | 0 <= k <= s :: ret[k, i] == data[(c + k) % |data|]
    ensures forall k, j | 0 <= k <= s && 0 <= j < ret.Length1 && j != i :: ret[k, j] == old(ret[k, j])
  {
    var n := |data|;
    var end := (c + s + 1) % n;
    if c < end {
      ReadWithoutWrap(c, s, n);
      var piece := data[c..end];
      forall k | 0 <= k <= s {
        ret[k, i] := piece[k];
      }
      forall k | 0 <= k <= s
        ensures ret[k, i] == data[(c + k) % n]
      {
        ModUnique(c + k, 0, c + k, n);
      }
    } else {
      var d := n - c;
      ReadWithWrap(c, s, n);
      var head, tail := data[c..], data[..end];
      forall k | 0 <= k < d {
        ret[k, i] := head[k];
      }
      forall k | d <= k <= s {
        ret[k, i] := tail[k - d];
      }
      forall k | 0 <= k <= s
        ensures ret[k, i] == data[(c + k) % n]
      {
        if k < d {
          ModUnique(c + k, 0, c + k, n);
        } else {
          ModUnique(c + k, 1, k - d, n);
        }
      }
    }
  }

  /** When the end index lies past the cursor, the read does not wrap. */
  lemma ReadWithoutWrap(c: int, s: nat, n: int)
    requires 0 <= c < n && s + 1 <= n && c < (c + s + 1) % n
    ensures (c + s + 1) % n == c + s + 1
  {
    if c + s + 1 >= n {
      ModUnique(c + s + 1, 1, c + s + 1 - n, n);
    } else {
      ModUnique(c + s + 1, 0, c + s + 1, n);
    }
  }

  /** Otherwise the read runs to the end of the corpus and continues from its start. */
  lemma ReadWithWrap(c: int, s: nat, n: int)
    requires 0 <= c < n && s + 1 <= n && (c + s + 1) % n <= c
    ensures n <= c + s + 1 && (c + s + 1) % n == c + s + 1 - n
  {
    if c + s + 1 < n {
      ModUnique(c + s + 1, 0, c + s + 1, n);
    }
    ModUnique(c + s + 1, 1, c + s + 1 - n, n);
  }

  /** Every cursor of `after` lies `by` symbols past the cursor of the same slot in `before`, wrapping around n. */
  ghost predicate Advanced(before: seq<int>, after: seq<int>, shift: int, n: nat) {
    0 < n && |before| == |after| && forall j | 0 <= j < |before| :: after[j] == (before[j] + shift) % n
  }

  /** Cursors inside the corpus are their own advance by zero. */
  lemma AdvancedByZero(idx: seq<int>, n: nat)
    requires 0 < n && forall j | 0 <= j < |idx| :: 0 <= idx[j] < n
    ensures Advanced(idx, idx, 0, n)
  {
    forall j | 0 <= j < |idx|
      ensures idx[j] == (idx[j] + 0) % n
    {
      ModUnique(idx[j], 0, idx[j], n);
    }
  }

  lemma AdvancedTwice(a: seq<int>, b: seq<int>, c: seq<int>, x: int, y: int, n: nat)
    requires Advanced(a, b, x, n) && Advanced(b, c, y, n)
    ensures Advanced(a, c, x + y, n)
  {
    forall j | 0 <= j < |a|
      ensures c[j] == (a[j] + x + y) % n
    {
      ModAdd(a[j] + x, y, n);
    }
  }

  function Min(a: int, b: int): int {
    if a <= b then a else b
  }

  class DataIter {
    const windowSize: nat
    var stepSize: int
    const batcher: TextBatcher
    /** The [window][batch] buffers, shifted and refilled in place. */
    const input: array2<int>
    const target: array2<int>
    /** How many trailing columns hold data read from the corpus; the rest are still zero. */
    ghost var filled: nat

    ghost predicate Valid()
      reads this, batcher, input, target
    {
      && batcher.Valid()
      && input != target
      && input.Length0 == windowSize && input.Length1 == batcher.batchSize
      && target.Length0 == windowSize && target.Length1 == batcher.batchSize
      && stepSize <= windowSize
      && filled <= windowSize
      && WindowHolds()
    }

    /**
     * Column t of slot j holds the symbol W - t positions behind the cursor
     * as input and the one after it as target, unless it lies in the leading
     * zero-filled part that no read has reached yet.
     */
    ghost predicate WindowHolds()
      reads this, batcher, input, target
      requires batcher.Valid()
      requires input.Length0 == windowSize && input.Length1 == batcher.batchSize
      requires target.Length0 == windowSize && target.Length1 == batcher.batchSize
      requires filled <= windowSize
    {
      && BufferHolds(input, batcher.data, batcher.idx, filled, 0)
      && BufferHolds(target, batcher.data, batcher.idx, filled, 1)
    }

    constructor (windowSize: nat, stepSize: int, batcher: TextBatcher)
      requires batcher.Valid() && stepSize <= windowSize
      ensures Valid() && fresh(input) && fresh(target)
      ensures this.windowSize == windowSize && this.stepSize == stepSize && this.batcher == batcher
      ensures filled == 0
      ensures forall t, j | 0 <= t < windowSize && 0 <= j < batcher.batchSize :: input[t, j] == 0 && target[t, j] == 0
    {
      this.windowSize := windowSize;
      this.stepSize := stepSize;
      this.batcher := batcher;
      input := new int[windowSize, batcher.batchSize]((_, _) => 0);
      target := new int[windowSize, batcher.batchSize]((_, _) => 0);
      filled := 0;
    }

    /**
     * Construction from the bytes of a file: the step size is checked first,
     * then the text is loaded; the random initial cursors are given as `cursors`.
     */
    static method Open(file: seq<Int8>, windowSize: nat, stepSize: int, batchSize: nat, cursors: seq<int>)
      returns (r: Result<DataIter, DataError>)
      requires CursorsFit(cursors, batchSize, |file|)
      ensures stepSize > windowSize ==> r == Failure(StepTooLarge)
      ensures stepSize <= windowSize && LoadCorpus(file).Failure? ==> r == Failure(LoadCorpus(file).error)
      ensures r.Success? <==> stepSize <= windowSize && LoadCorpus(file).Success?
      ensures r.Success? ==> fresh(r.value) && fresh(r.value.batcher) && r.value.Valid() && r.value.filled == 0
      ensures r.Success? ==> r.value.windowSize == windowSize && r.value.stepSize == stepSize
      ensures r.Success? ==> r.value.batcher.data == LoadCorpus(file).value && r.value.batcher.idx == cursors
    {
      if stepSize > windowSize {
        return Failure(StepTooLarge);
      }
      var b := TextBatcher.Open(file, batchSize, cursors);
      if b.Failure? {
        return Failure(b.error);
      }
      var it := new DataIter(windowSize, stepSize, b.value);
      return Success(it);
    }

    /** Records a new step size; refused when it exceeds the window size. */
    method SetStepSize(s: int) returns (ok: bool)
      requires Valid()
      modifies this`stepSize
      ensures Valid()
      ensures ok <==> s <= windowSize
      ensures stepSize == if ok then s else old(stepSize)
    {
      if s > windowSize {
        return false;
      }
      stepSize := s;
      return true;
    }

    /**
     * One iteration: both buffers move left by the step, the freed trailing
     * columns take the batcher's next input and target, and the buffers
     * themselves are returned.
     */
    method Next() returns (inp: array2<int>, tgt: array2<int>)
      requires Valid() && 1 <= stepSize && stepSize + 1 <= batcher.n
      modifies this, input, target, batcher
      ensures Valid() && inp == input && tgt == target
      ensures stepSize == old(stepSize) && filled == Min(old(filled) + stepSize, windowSize)
      ensures forall t, j | 0 <= t < windowSize - stepSize && 0 <= j < batcher.batchSize ::
        input[t, j] == old(input[t + stepSize, j]) && target[t, j] == old(target[t + stepSize, j])
      ensures forall t, j | windowSize - stepSize <= t < windowSize && 0 <= j < batcher.batchSize ::
        input[t, j] == batcher.data[(old(batcher.idx[j]) + t - (windowSize - stepSize)) % batcher.n] &&
        target[t, j] == batcher.data[(old(batcher.idx[j]) + t - (windowSize - stepSize) + 1) % batcher.n]
      ensures Advanced(old(batcher.idx), batcher.idx, stepSize, batcher.n)
    {
      var s := stepSize;
      ghost var before := batcher.idx;
      var ret := batcher.Next(s);
      Slide(input, ret, batcher.data, before, batcher.idx, filled, s, 0);
      Slide(target, ret, batcher.data, before, batcher.idx, filled, s, 1);
      filled := Min(filled + s, windowSize);
      inp, tgt := input, target;
    }

    /** The corpus length of the underlying batcher. */
    function Size(): (r: nat)
      reads this, batcher, input, target
      requires Valid()
      ensures r == |batcher.data| && 0 < r
    {
      batcher.Size()
    }
  }

  /**
   * Column t of buffer a holds, for each slot j, the corpus symbol at
   * `idx[j] + t - W + lag` (wrapping), except the leading W - filled columns,
   * which are zero.
   */
  ghost predicate BufferHolds(a: array2<int>, data: seq<int>, idx: seq<int>, filled: nat, lag: int)
    reads a
    requires 0 < |data| && |idx| == a.Length1 && filled <= a.Length0
  {
    forall t, j | 0 <= t < a.Length0 && 0 <= j < a.Length1 ::
      a[t, j] == if t < a.Length0 - filled then 0 else data[(idx[j] + t - a.Length0 + lag) % |data|]
  }

  /** What BufferHolds says of the columns of a buffer after a shift by s, before the refill. */
  ghost predicate ShiftedHolds(a: array2<int>, data: seq<int>, idx: seq<int>, filled: nat, s: nat, lag: int)
    reads a
    requires 0 < |data| && |idx| == a.Length1 && filled <= a.Length0 && s <= a.Length0
  {
    forall t, j | 0 <= t < a.Length0 - s && 0 <= j < a.Length1 ::
      a[t, j] == if t + s < a.Length0 - filled then 0 else data[(idx[j] + t + s - a.Length0 + lag) % |data|]
  }

  /** `a[:-s] = a[s:]`: every column moves s places to the left; the last s columns keep their values. */
  method ShiftBuffer(a: array2<int>, ghost data: seq<int>, ghost idx: seq<int>, ghost filled: nat, s: nat, ghost lag: int)
    requires 0 < |data| && |idx| == a.Length1 && filled <= a.Length0 && s <= a.Length0
    requires BufferHolds(a, data, idx, filled, lag)
    modifies a
    ensures ShiftedHolds(a, data, idx, filled, s, lag)
    ensures forall t, j | 0 <= t < a.Length0 - s && 0 <= j < a.Length1 :: a[t, j] == old(a[t + s, j])
    ensures forall t, j | a.Length0 - s <= t < a.Length0 && 0 <= j < a.Length1 :: a[t, j] == old(a[t, j])
  {
    forall t, j | 0 <= t < a.Length0 - s && 0 <= j < a.Length1 {
      a[t, j] := a[t + s, j];
    }
  }

  /**
   * `a[-s:] = ret[lag : lag + s]`: the last s columns take s consecutive rows
   * of a batcher read, after which the buffer is in step with the advanced cursors.
   */
  method RefillBuffer(a: array2<int>, ret: array2<int>, ghost data: seq<int>, ghost idx: seq<int>, ghost idx': seq<int>,
                      ghost filled: nat, s: nat, lag: nat)
    requires 0 < |data| && |idx| == |idx'| == a.Length1 && filled <= a.Length0 && s <= a.Length0
    requires s + lag <= ret.Length0 && ret.Length1 == a.Length1 && a != ret
    requires ShiftedHolds(a, data, idx, filled, s, lag)
    requires forall k, j | 0 <= k < ret.Length0 && 0 <= j < a.Length1 :: ret[k, j] == data[(idx[j] + k) % |data|]
    requires forall j | 0 <= j < a.Length1 :: idx'[j] == (idx[j] + s) % |data|
    modifies a
    ensures BufferHolds(a, data, idx', Min(filled + s, a.Length0), lag)
    ensures forall t, j | 0 <= t < a.Length0 - s && 0 <= j < a.Length1 :: a[t, j] == old(a[t, j])
    ensures forall t, j | a.Length0 - s <= t < a.Length0 && 0 <= j < a.Length1 :: a[t, j] == ret[t - (a.Length0 - s) + lag, j]
  {
    forall t, j | a.Length0 - s <= t < a.Length0 && 0 <= j < a.Length1 {
      a[t, j] := ret[t - (a.Length0 - s) + lag, j];
    }
    forall t, j | 0 <= t < a.Length0 && 0 <= j < a.Length1
      ensures a[t, j] == if t < a.Length0 - Min(filled + s, a.Length0) then 0
        else data[(idx'[j] + t - a.Length0 + lag) % |data|]
    {
      ModAdd(idx[j] + s, t - a.Length0 + lag, |data|);
    }
  }

  /**
   * `a[:-s] = a[s:]` followed by `a[-s:] = ret[lag : lag + s]`. The read does
   * not touch the buffers, so shifting after it is the same as shifting
   * before it.
   */
  method Slide(a: array2<int>, ret: array2<int>, ghost data: seq<int>, ghost idx: seq<int>, ghost idx': seq<int>,
               ghost filled: nat, s: nat, lag: nat)
    requires 0 < |data| && |idx| == |idx'| == a.Length1 && filled <= a.Length0 && s <= a.Length0
    requires s + lag <= ret.Length0 && ret.Length1 == a.Length1 && a != ret
    requires BufferHolds(a, data, idx, filled, lag)
    requires forall k, j | 0 <= k < ret.Length0 && 0 <= j < a.Length1 :: ret[k, j] == data[(idx[j] + k) % |data|]
    requires forall j | 0 <= j < a.Length1 :: idx'[j] == (idx[j] + s) % |data|
    modifies a
    ensures BufferHolds(a, data, idx', Min(filled + s, a.Length0), lag)
    ensures forall t, j | 0 <= t < a.Length0 - s && 0 <= j < a.Length1 :: a[t, j] == old(a[t + s, j])
    ensures forall t, j | a.Length0 - s <= t < a.Length0 && 0 <= j < a.Length1 ::
      a[t, j] == data[(idx[j] + t - (a.Length0 - s) + lag) % |data|]
  {
    ShiftBuffer(a, data, idx, filled, s, lag);
    RefillBuffer(a, ret, data, idx, idx', filled, s, lag);
  }

  /**
   * Two successive reads continue each other: the first input of the second
   * read is the last target of the first, also across the end of the corpus,
   * so no symbol is skipped or repeated.
   */
  method ReadsAreContiguous(b: TextBatcher, s1: nat, s2: nat) returns (first: array2<int>, second: array2<int>)
    requires b.Valid() && s1 + 1 <= b.n && s2 + 1 <= b.n
    modifies b
    ensures first.Length0 == s1 + 1 && second.Length0 == s2 + 1
    ensures first.Length1 == b.batchSize == second.Length1
    ensures forall i | 0 <= i < b.batchSize :: second[0, i] == first[s1, i]
  {
    first := b.Next(s1);
    second := b.Next(s2);
    forall i | 0 <= i < b.batchSize
      ensures second[0, i] == first[s1, i]
    {
      ModAdd(old(b.idx[i]) + s1, 0, b.n);
    }
  }
}
