/**
 * The channel set: 1024 channels in 16 words, with cached count, first and last channel.
 * A 64-bit word is modelled as the set of its one-bits, so that w & (1 << b) is b in w.
 */
module Channels {

  const MAX_CHANNELS: nat := 1024
  const WORD_BITS: nat := 64
  const NUM_WORDS: nat := 16

  type Word = w: set<nat> | forall b :: b in w ==> b < 64

  datatype Layout = LayoutNone | Surround | Multitrack

  predicate Has(words: seq<Word>, n: nat)
    requires |words| == NUM_WORDS && n < MAX_CHANNELS
  {
    n % WORD_BITS in words[n / WORD_BITS]
  }

  /** The channels below k. */
  ghost function Below(words: seq<Word>, k: nat): set<nat>
    requires |words| == NUM_WORDS && k <= MAX_CHANNELS
  {
    set n | 0 <= n < k && Has(words, n)
  }

  ghost function ChansOf(words: seq<Word>): set<nat>
    requires |words| == NUM_WORDS
  {
    Below(words, MAX_CHANNELS)
  }

  ghost predicate IsFirst(s: set<nat>, x: nat) { x in s && forall y :: y in s ==> x <= y }

  ghost predicate IsLast(s: set<nat>, x: nat) { x in s && forall y :: y in s ==> y <= x }

  /** Count, first and last describe the set. */
  ghost predicate Indexed(s: set<nat>, count: nat, first: nat, last: nat) {
    && count == |s|
    && if s == {} then first == 0 && last == 0 else IsFirst(s, first) && IsLast(s, last)
  }

  lemma {:induction false} BelowNext(words: seq<Word>, k: nat)
    requires |words| == NUM_WORDS && k < MAX_CHANNELS
    ensures Below(words, k + 1) == if Has(words, k) then Below(words, k) + {k} else Below(words, k)
    ensures k !in Below(words, k)
    ensures forall y :: y in Below(words, k) ==> y < k
  {
  }

  lemma {:induction false} BelowEmptyWord(words: seq<Word>, w: nat)
    requires |words| == NUM_WORDS && w < NUM_WORDS && words[w] == {}
    ensures Below(words, 64 * w + 64) == Below(words, 64 * w)
  {
    forall n | 64 * w <= n < 64 * w + 64
      ensures !Has(words, n)
    {
      assert n / 64 == w;
    }
  }

  lemma {:induction false} AddLast(s: set<nat>, count: nat, first: nat, last: nat, k: nat)
    requires Indexed(s, count, first, last)
    requires forall y :: y in s ==> y < k
    ensures Indexed(s + {k}, count + 1, if s == {} then k else first, k)
  {
  }

  lemma {:induction false} NothingIndexed(words: seq<Word>)
    requires |words| == NUM_WORDS
    ensures Below(words, 0) == {} && Indexed({}, 0, 0, 0)
  {
  }

  lemma {:induction false} HasAt(words: seq<Word>, w: nat, b: nat)
    requires |words| == NUM_WORDS && w < NUM_WORDS && b < WORD_BITS
    ensures Has(words, 64 * w + b) <==> b in words[w]
  {
  }

  class ChannelSet {
    const words: array<Word>
    var numChans: nat
    var firstChan: nat
    var lastChan: nat
    var layout: Layout
    var order: nat

    ghost function Chans(): set<nat>
      reads words
      requires words.Length == NUM_WORDS
    {
      ChansOf(words[..])
    }

    ghost predicate Valid()
      reads this, words
    {
      words.Length == NUM_WORDS && Indexed(Chans(), numChans, firstChan, lastChan)
    }

    /** Recomputes the cached fields from the words. */
    method IndexChans()
      requires words.Length == NUM_WORDS
      modifies this`numChans, this`firstChan, this`lastChan
      ensures Valid()
    {
      hide Below, Indexed, Has;
      NothingIndexed(words[..]);
      numChans, firstChan, lastChan := 0, 0, 0;
      var hasFirst := false;
      var nch := 0;
      var w := 0;
      while w < NUM_WORDS
        invariant 0 <= w <= NUM_WORDS && nch == 64 * w
        invariant hasFirst <==> Below(words[..], nch) != {}
        invariant Indexed(Below(words[..], nch), numChans, firstChan, lastChan)
      {
        if words[w] != {} {
          var b := 0;
          while b < WORD_BITS
            invariant 0 <= b <= WORD_BITS && nch == 64 * w + b
            invariant hasFirst <==> Below(words[..], nch) != {}
            invariant Indexed(Below(words[..], nch), numChans, firstChan, lastChan)
          {
            BelowNext(words[..], nch);
            HasAt(words[..], w, b);
            if b in words[w] {
              AddLast(Below(words[..], nch), numChans, firstChan, lastChan, nch);
              numChans := numChans + 1;
              if !hasFirst {
                hasFirst := true;
                firstChan := nch;
              }
              lastChan := nch;
            }
            nch := nch + 1;
            b := b + 1;
          }
        } else {
          BelowEmptyWord(words[..], w);
          nch := nch + WORD_BITS;
        }
        w := w + 1;
      }
    }

    constructor ()
      ensures Valid() && Chans() == {} && layout == LayoutNone && fresh(words)
    {
      words := new Word[NUM_WORDS](_ => {});
      numChans, firstChan, lastChan, layout, order := 0, 0, 0, LayoutNone, 0;
      new;
      assert Chans() == {};
    }

    method HasChannel(n: nat) returns (r: bool)
      requires Valid() && n < MAX_CHANNELS
      ensures r <==> n in Chans()
    {
      r := n % WORD_BITS in words[n / WORD_BITS];
    }

    /** All channels at once: the first word becomes the mask, the others are cleared. */
    method SetMask(mask: Word)
      requires Valid()
      modifies this`numChans, this`firstChan, this`lastChan, words
      ensures Valid() && Chans() == mask
    {
      ClearChans();
      words[0] := mask;
      assert Chans() == mask by {
        forall n | 0 <= n < MAX_CHANNELS
          ensures Has(words[..], n) <==> n in mask
        {
          assert n < 64 ==> n / 64 == 0 && n % 64 == n;
        }
      }
      IndexChans();
    }

    method ClearChans()
      requires words.Length == NUM_WORDS
      modifies words
      ensures forall i :: 0 <= i < NUM_WORDS ==> words[i] == {}
    {
      forall i | 0 <= i < NUM_WORDS {
        words[i] := {};
      }
    }

    /** Sets or clears the bits from..to, one by one. */
    method ToggleBits(from: nat, to: nat, enabled: bool)
      requires words.Length == NUM_WORDS && from <= to < MAX_CHANNELS
      modifies words
      ensures Chans() == if enabled then old(Chans()) + Range(from, to) else old(Chans()) - Range(from, to)
    {
      hide Has;
      ghost var start := words[..];
      var n := from;
      while n <= to
        invariant from <= n <= to + 1
        invariant forall k :: 0 <= k < MAX_CHANNELS ==>
          (Has(words[..], k) <==> if from <= k < n then enabled else Has(start, k))
      {
        var w, b := n / WORD_BITS, n % WORD_BITS;
        ghost var before := words[..];
        words[w] := if enabled then words[w] + {b} else words[w] - {b};
        forall k | 0 <= k < MAX_CHANNELS
          ensures Has(words[..], k) <==> if from <= k <= n then enabled else Has(start, k)
        {
          ToggleWord(before, words[..], n, enabled, k);
          assert Has(before, k) <==> if from <= k < n then enabled else Has(start, k);
        }
        n := n + 1;
      }
      forall k | 0 <= k < MAX_CHANNELS
        ensures k in Chans() <==> if Between(from, k, to) then enabled else k in ChansOf(start)
      {
        assert Has(words[..], k) <==> if from <= k < n then enabled else Has(start, k);
      }
    }

    method SetRange(from: nat, to: nat)
      requires Valid() && from <= to < MAX_CHANNELS
      modifies this`numChans, this`firstChan, this`lastChan, words
      ensures Valid() && Chans() == Range(from, to)
    {
      ClearChans();
      assert Chans() == {};
      ToggleBits(from, to, true);
      IndexChans();
    }

    method ToggleChannel(n: nat, enabled: bool)
      requires Valid() && n < MAX_CHANNELS
      modifies this`numChans, this`firstChan, this`lastChan, words
      ensures Valid() && Chans() == if enabled then old(Chans()) + {n} else old(Chans()) - {n}
    {
      ToggleBits(n, n, enabled);
      assert Range(n, n) == {n};
      IndexChans();
    }

    method ToggleChannelRange(from: nat, to: nat, enabled: bool)
      requires Valid() && from <= to < MAX_CHANNELS
      modifies this`numChans, this`firstChan, this`lastChan, words
      ensures Valid()
      ensures Chans() == if enabled then old(Chans()) + Range(from, to) else old(Chans()) - Range(from, to)
    {
      ToggleBits(from, to, enabled);
      IndexChans();
    }

    method BitwiseAnd(other: ChannelSet)
      requires Valid() && other.Valid()
      modifies this`numChans, this`firstChan, this`lastChan, words
      ensures Valid() && Chans() == old(Chans()) * old(other.Chans())
    {
      forall i | 0 <= i < NUM_WORDS {
        words[i] := words[i] * other.words[i];
      }
      WordWise(old(words[..]), old(other.words[..]), words[..]);
      IndexChans();
    }

    method BitwiseOr(other: ChannelSet)
      requires Valid() && other.Valid()
      modifies this`numChans, this`firstChan, this`lastChan, words
      ensures Valid() && Chans() == old(Chans()) + old(other.Chans())
    {
      forall i | 0 <= i < NUM_WORDS {
        words[i] := words[i] + other.words[i];
      }
      WordWise(old(words[..]), old(other.words[..]), words[..]);
      IndexChans();
    }

    method BitwiseXor(other: ChannelSet)
      requires Valid() && other.Valid()
      modifies this`numChans, this`firstChan, this`lastChan, words
      ensures Valid()
      ensures Chans() == (old(Chans()) - old(other.Chans())) + (old(other.Chans()) - old(Chans()))
    {
      forall i | 0 <= i < NUM_WORDS {
        words[i] := (words[i] - other.words[i]) + (other.words[i] - words[i]);
      }
      WordWise(old(words[..]), old(other.words[..]), words[..]);
      IndexChans();
    }

    /** Decides inclusion in a mask of the first word, on the cached last channel and one word. */
    method IsSubset(mask: Word) returns (r: bool)
      requires Valid()
      ensures r <==> Chans() <= mask
    {
      SmallSet(words[..], lastChan);
      r := lastChan < WORD_BITS && words[0] * mask == words[0];
    }

    method IsEqual(mask: Word) returns (r: bool)
      requires Valid()
      ensures r <==> Chans() == mask
    {
      SmallSet(words[..], lastChan);
      r := lastChan < WORD_BITS && words[0] == mask;
    }

    /** Not quite inclusion: a set with a channel above the first word counts as superset of every mask. */
    method IsSuperset(mask: Word) returns (r: bool)
      requires Valid()
      ensures r <==> mask <= Chans() || exists n :: n in Chans() && n >= WORD_BITS
    {
      SmallSet(words[..], lastChan);
      FirstWord(words[..]);
      r := lastChan >= WORD_BITS || words[0] * mask == mask;
    }
  }

  predicate Between(from: nat, n: nat, to: nat) { from <= n <= to }

  ghost function Range(from: nat, to: nat): set<nat> { set n | 0 <= n <= to && Between(from, n, to) }

  lemma {:induction false} ToggleWord(words: seq<Word>, words': seq<Word>, n: nat, enabled: bool, k: nat)
    requires |words| == |words'| == NUM_WORDS && n < MAX_CHANNELS && k < MAX_CHANNELS
    requires forall w :: 0 <= w < NUM_WORDS && w != n / WORD_BITS ==> words'[w] == words[w]
    requires var w, b := n / WORD_BITS, n % WORD_BITS;
             words'[w] == if enabled then words[w] + {b} else words[w] - {b}
    ensures Has(words', k) <==> if k == n then enabled else Has(words, k)
  {
    assert k == n <==> k / WORD_BITS == n / WORD_BITS && k % WORD_BITS == n % WORD_BITS;
  }

  /** Word-wise operations are set operations. */
  lemma {:induction false} WordWise(a: seq<Word>, b: seq<Word>, c: seq<Word>)
    requires |a| == |b| == |c| == NUM_WORDS
    ensures (forall i :: 0 <= i < NUM_WORDS ==> c[i] == a[i] * b[i]) ==> ChansOf(c) == ChansOf(a) * ChansOf(b)
    ensures (forall i :: 0 <= i < NUM_WORDS ==> c[i] == a[i] + b[i]) ==> ChansOf(c) == ChansOf(a) + ChansOf(b)
    ensures (forall i :: 0 <= i < NUM_WORDS ==> c[i] == (a[i] - b[i]) + (b[i] - a[i])) ==>
              ChansOf(c) == (ChansOf(a) - ChansOf(b)) + (ChansOf(b) - ChansOf(a))
  {
  }

  lemma {:induction false} FirstWord(words: seq<Word>)
    requires |words| == NUM_WORDS
    ensures forall n :: n < WORD_BITS ==> (n in ChansOf(words) <==> n in words[0])
  {
    forall n: nat | n < WORD_BITS
      ensures n in ChansOf(words) <==> n in words[0]
    {
      HasAt(words, 0, n);
    }
  }

  /** Without channels above the first word, the first word is the whole set. */
  lemma {:induction false} SmallSet(words: seq<Word>, last: nat)
    requires |words| == NUM_WORDS
    requires ChansOf(words) != {} ==> IsLast(ChansOf(words), last)
    requires ChansOf(words) == {} ==> last == 0
    ensures last < WORD_BITS ==> ChansOf(words) == words[0]
    ensures last >= WORD_BITS ==> last in ChansOf(words)
  {
    FirstWord(words);
  }

  /** A set with channel 64 alone passes for a superset of the first channel. */
  method HighChannelSuperset() returns (s: ChannelSet, r: bool)
    ensures fresh(s) && s.Valid() && s.Chans() == {64} && r && !({0} <= s.Chans())
  {
    s := new ChannelSet();
    s.ToggleChannel(64, true);
    assert 64 in s.Chans();
    r := s.IsSuperset({0});
    assert 0 !in s.Chans();
  }
}
