/**
 The password generator of the accounts service. Every call of `randomInt` is an explicit
 input, so that the generated password is a function of the options and of the draws.
 */
module PasswordGenerator {
  import opened Wrappers

  const UPPERCASE := "ABCDEFGHJKLMNPQRSTUVWXYZ"
  const LOWERCASE := "abcdefghijkmnpqrstuvwxyz"
  const NUMBERS := "23456789"
  const SYMBOLS := "!@#$%^&*()-_=+[]{}"

  datatype Options = Options(
    length: Option<int>,
    includeUppercase: Option<bool>,
    includeLowercase: Option<bool>,
    includeNumbers: Option<bool>,
    includeSymbols: Option<bool>)

  predicate Included(flag: Option<bool>) {
    flag.None? || flag.value
  }

  function ClampedLength(o: Options): nat {
    var wanted := if o.length.Some? then o.length.value else 16;
    var atLeast := if wanted < 8 then 8 else wanted;
    if atLeast > 64 then 64 else atLeast
  }

  function SelectedCharsets(o: Options): seq<string> {
    (if Included(o.includeUppercase) then [UPPERCASE] else []) +
    (if Included(o.includeLowercase) then [LOWERCASE] else []) +
    (if Included(o.includeNumbers) then [NUMBERS] else []) +
    (if Included(o.includeSymbols) then [SYMBOLS] else [])
  }

  function ActiveCharsets(o: Options): seq<string> {
    if |SelectedCharsets(o)| > 0 then SelectedCharsets(o) else [UPPERCASE, LOWERCASE, NUMBERS, SYMBOLS]
  }

  function Join(sets: seq<string>): string {
    if sets == [] then "" else sets[0] + Join(sets[1..])
  }

  // ---------------------------------------------------------------------------------
  // The shuffle
  // ---------------------------------------------------------------------------------

  function Swap<T>(s: seq<T>, i: nat, j: nat): (r: seq<T>)
    requires i < |s| && j < |s|
    ensures |r| == |s| && r[i] == s[j] && r[j] == s[i]
    ensures forall k :: 0 <= k < |s| && k != i && k != j ==> r[k] == s[k]
  {
    s[i := s[j]][j := s[i]]
  }

  /** The draws that shuffling n elements can see: one below n, one below n-1, ..., one below 2. */
  ghost predicate ShuffleDraws(n: nat, js: seq<nat>) {
    |js| == (if n == 0 then 0 else n - 1) && forall t :: 0 <= t < |js| ==> js[t] < n - t
  }

  /** Fisher-Yates from the back: js[0] chooses the last element, js[1] the one before it, ... */
  ghost function Shuffle<T>(s: seq<T>, js: seq<nat>): (r: seq<T>)
    requires ShuffleDraws(|s|, js)
    ensures |r| == |s|
    decreases |s|
  {
    if |s| <= 1 then s else
    var swapped := Swap(s, |s| - 1, js[0]);
    Shuffle(swapped[..|s| - 1], js[1..]) + [swapped[|s| - 1]]
  }

  /** The draws that turn s into t. */
  ghost function Unshuffle<T>(s: seq<T>, t: seq<T>): (js: seq<nat>)
    requires multiset(s) == multiset(t)
    decreases |s|
  {
    SameLength(s, t);
    if |s| <= 1 then [] else
    LastOccurs(s, t);
    var j := FirstIndex(s, t[|t| - 1]);
    SplitLast(s, j, t);
    [j] + Unshuffle(Swap(s, |s| - 1, j)[..|s| - 1], t[..|t| - 1])
  }

  ghost function FirstIndex<T>(s: seq<T>, x: T): (i: nat)
    requires x in s
    ensures i < |s| && s[i] == x && forall k :: 0 <= k < i ==> s[k] != x
  {
    if s[0] == x then 0 else
    assert x in s[1..];
    1 + FirstIndex(s[1..], x)
  }

  lemma SameLength<T>(s: seq<T>, t: seq<T>)
    requires multiset(s) == multiset(t)
    ensures |s| == |t|
  {
    assert |multiset(s)| == |s| && |multiset(t)| == |t|;
  }

  lemma LastOccurs<T>(s: seq<T>, t: seq<T>)
    requires multiset(s) == multiset(t) && |t| > 0
    ensures t[|t| - 1] in s
  {
    assert t[|t| - 1] in multiset(s);
  }

  lemma SwapKeepsElements<T>(s: seq<T>, i: nat, j: nat)
    requires i < |s| && j < |s|
    ensures multiset(Swap(s, i, j)) == multiset(s)
  {
  }

  lemma DropLast<T>(s: seq<T>)
    requires |s| > 0
    ensures multiset(s[..|s| - 1]) == multiset(s) - multiset{s[|s| - 1]}
  {
    assert s == s[..|s| - 1] + [s[|s| - 1]];
  }

  lemma SplitLast<T>(s: seq<T>, j: nat, t: seq<T>)
    requires multiset(s) == multiset(t) && |s| == |t| > 0 && j < |s| && s[j] == t[|t| - 1]
    ensures multiset(Swap(s, |s| - 1, j)[..|s| - 1]) == multiset(t[..|t| - 1])
  {
    hide Swap;
    SwapKeepsElements(s, |s| - 1, j);
    DropSameLast(Swap(s, |s| - 1, j), t);
  }

  lemma DropSameLast<T>(s: seq<T>, t: seq<T>)
    requires multiset(s) == multiset(t) && |s| > 0 && |t| > 0 && s[|s| - 1] == t[|t| - 1]
    ensures multiset(s[..|s| - 1]) == multiset(t[..|t| - 1])
  {
    DropLast(s);
    DropLast(t);
  }

  lemma {:induction false} ShufflePermutes<T>(s: seq<T>, js: seq<nat>)
    requires ShuffleDraws(|s|, js)
    ensures multiset(Shuffle(s, js)) == multiset(s)
    decreases |s|
  {
    if |s| > 1 {
      var swapped := Swap(s, |s| - 1, js[0]);
      ShufflePermutes(swapped[..|s| - 1], js[1..]);
      SwapKeepsElements(s, |s| - 1, js[0]);
      assert swapped == swapped[..|s| - 1] + [swapped[|s| - 1]];
    }
  }

  /** What is left to shuffle once the last element is in place. */
  ghost function AfterSwap<T>(s: seq<T>, j: nat): seq<T>
    requires j < |s|
  {
    Swap(s, |s| - 1, j)[..|s| - 1]
  }

  lemma UnshuffleStep<T>(s: seq<T>, t: seq<T>) returns (j: nat)
    requires multiset(s) == multiset(t) && |s| > 1
    ensures j < |s| == |t| && s[j] == t[|t| - 1]
    ensures multiset(AfterSwap(s, j)) == multiset(t[..|t| - 1])
    ensures Unshuffle(s, t) == [j] + Unshuffle(AfterSwap(s, j), t[..|t| - 1])
  {
    hide Swap;
    SameLength(s, t);
    LastOccurs(s, t);
    j := FirstIndex(s, t[|t| - 1]);
    SplitLast(s, j, t);
  }

  lemma ShuffleStep<T>(s: seq<T>, j: nat, js: seq<nat>)
    requires j < |s| && |s| > 1 && ShuffleDraws(|s| - 1, js)
    ensures ShuffleDraws(|s|, [j] + js)
    ensures Shuffle(s, [j] + js) == Shuffle(AfterSwap(s, j), js) + [s[j]]
  {
    assert ([j] + js)[1..] == js;
  }

  /** Every rearrangement of s is reached, by draws the shuffle can see. */
  lemma {:induction false} ShuffleOnto<T>(s: seq<T>, t: seq<T>)
    requires multiset(s) == multiset(t)
    ensures ShuffleDraws(|s|, Unshuffle(s, t))
    ensures Shuffle(s, Unshuffle(s, t)) == t
    decreases |s|
  {
    SameLength(s, t);
    if |s| == 1 {
      LastOccurs(s, t);
    } else if |s| > 1 {
      hide Shuffle, Unshuffle, AfterSwap, ShuffleDraws;
      var j := UnshuffleStep(s, t);
      var rest, start := AfterSwap(s, j), t[..|t| - 1];
      SameLength(rest, start);
      ShuffleOnto(rest, start);
      ShuffleStep(s, j, Unshuffle(rest, start));
      assert t == start + [t[|t| - 1]];
    }
  }

  ghost predicate Distinct<T>(s: seq<T>) {
    forall i, j :: 0 <= i < j < |s| ==> s[i] != s[j]
  }

  lemma DistinctAfterSwap<T>(s: seq<T>, j: nat)
    requires Distinct(s) && j < |s|
    ensures Distinct(AfterSwap(s, j))
  {
  }

  /** On distinct elements the draws can be read back from the result. */
  lemma {:induction false} ShuffleOneToOne<T>(s: seq<T>, js: seq<nat>)
    requires ShuffleDraws(|s|, js) && Distinct(s)
    ensures multiset(s) == multiset(Shuffle(s, js))
    ensures Unshuffle(s, Shuffle(s, js)) == js
    decreases |s|
  {
    ShufflePermutes(s, js);
    if |s| > 1 {
      hide AfterSwap, FirstIndex, Shuffle, Unshuffle;
      var rest, r := AfterSwap(s, js[0]), Shuffle(s, js);
      assert js == [js[0]] + js[1..];
      ShuffleStep(s, js[0], js[1..]);
      var j := UnshuffleStep(s, r);
      assert j == js[0];
      DistinctAfterSwap(s, j);
      assert r[..|r| - 1] == Shuffle(rest, js[1..]);
      ShuffleOneToOne(rest, js[1..]);
    }
  }

  ghost function Positions(n: nat): seq<int> {
    seq(n, i => i)
  }

  ghost function Factorial(n: nat): nat {
    if n == 0 then 1 else n * Factorial(n - 1)
  }

  /** All the draw sequences a shuffle of n elements can see. */
  ghost function AllShuffleDraws(n: nat): set<seq<nat>> {
    if n <= 1 then {[]} else Prepended(n, AllShuffleDraws(n - 1))
  }

  ghost function Prepended(n: nat, tails: set<seq<nat>>): set<seq<nat>> {
    if n == 0 then {} else Prepended(n - 1, tails) + Layer(n - 1, tails)
  }

  ghost function Layer(x: nat, tails: set<seq<nat>>): set<seq<nat>> {
    set js | js in tails :: [x] + js
  }

  lemma {:induction false} PrependedMembers(n: nat, tails: set<seq<nat>>, js: seq<nat>)
    ensures js in Prepended(n, tails) <==> |js| > 0 && js[0] < n && js[1..] in tails
  {
    if n > 0 {
      PrependedMembers(n - 1, tails, js);
      if |js| > 0 && js[0] == n - 1 {
        assert js == [n - 1] + js[1..];
      }
    }
  }

  lemma {:induction false} PrependedSize(n: nat, tails: set<seq<nat>>)
    ensures |Prepended(n, tails)| == n * |tails|
  {
    hide Layer;
    if n > 0 {
      var lower, layer := Prepended(n - 1, tails), Layer(n - 1, tails);
      PrependedSize(n - 1, tails);
      LayerSize(n - 1, tails);
      LayerApart(n - 1, tails);
      assert |lower + layer| == |lower| + |layer|;
      OneMore(n - 1, |tails|);
    }
  }

  lemma OneMore(k: nat, size: nat)
    ensures k * size + size == (k + 1) * size
  {
  }

  /** A layer's sequences start with a value that no lower layer has. */
  lemma LayerApart(n: nat, tails: set<seq<nat>>)
    ensures Prepended(n, tails) !! Layer(n, tails)
  {
    forall js | js in Layer(n, tails)
      ensures js !in Prepended(n, tails)
    {
      PrependedMembers(n, tails, js);
    }
  }

  lemma {:induction false} LayerSize(x: nat, tails: set<seq<nat>>)
    ensures |Layer(x, tails)| == |tails|
  {
    if tails != {} {
      var js :| js in tails;
      LayerSize(x, tails - {js});
      var smaller := Layer(x, tails - {js});
      assert Layer(x, tails) == smaller + {[x] + js};
      assert [x] + js !in smaller by {
        forall k | k in tails - {js}
          ensures [x] + k != [x] + js
        {
          assert ([x] + k)[1..] == k && ([x] + js)[1..] == js;
        }
      }
    }
  }

  lemma {:induction false} AllShuffleDrawsExact(n: nat)
    ensures |AllShuffleDraws(n)| == Factorial(n)
    ensures forall js :: js in AllShuffleDraws(n) <==> ShuffleDraws(n, js)
  {
    if n > 1 {
      AllShuffleDrawsExact(n - 1);
      PrependedSize(n, AllShuffleDraws(n - 1));
      forall js
        ensures js in AllShuffleDraws(n) <==> ShuffleDraws(n, js)
      {
        PrependedMembers(n, AllShuffleDraws(n - 1), js);
        FirstDraw(n, js);
      }
    }
  }

  lemma FirstDraw(n: nat, js: seq<nat>)
    requires n > 1
    ensures ShuffleDraws(n, js) <==> |js| > 0 && js[0] < n && ShuffleDraws(n - 1, js[1..])
  {
    if |js| > 0 {
      assert forall t :: 1 <= t < |js| ==> js[t] == js[1..][t - 1];
    }
  }

  /** The shuffle is unbiased: of the n! equally likely draw sequences, exactly one gives each
      rearrangement of n distinct positions. */
  lemma ShuffleUnbiased(n: nat, t: seq<int>)
    requires multiset(t) == multiset(Positions(n))
    ensures |AllShuffleDraws(n)| == Factorial(n)
    ensures forall js :: js in AllShuffleDraws(n) <==> ShuffleDraws(n, js)
    ensures exists js :: ShuffleDraws(n, js) && Shuffle(Positions(n), js) == t
    ensures forall js, ks | ShuffleDraws(n, js) && ShuffleDraws(n, ks) ::
              Shuffle(Positions(n), js) == t == Shuffle(Positions(n), ks) ==> js == ks
  {
    AllShuffleDrawsExact(n);
    ShuffleOnto(Positions(n), t);
    forall js, ks | ShuffleDraws(n, js) && ShuffleDraws(n, ks) &&
                    Shuffle(Positions(n), js) == t == Shuffle(Positions(n), ks)
      ensures js == ks
    {
      ShuffleOneToOne(Positions(n), js);
      ShuffleOneToOne(Positions(n), ks);
    }
  }

  /** What the shuffle does to positions does not depend on what is shuffled. */
  lemma ShuffleMovesPositions<T>(s: seq<T>, js: seq<nat>)
    requires ShuffleDraws(|s|, js)
    ensures forall k :: 0 <= k < |s| ==> 0 <= Shuffle(Positions(|s|), js)[k] < |s|
    ensures forall k :: 0 <= k < |s| ==> Shuffle(s, js)[k] == s[Shuffle(Positions(|s|), js)[k]]
  {
    MovesTogether(s, Positions(|s|), js, s);
  }

  lemma {:induction false} MovesTogether<T>(s: seq<T>, ps: seq<int>, js: seq<nat>, all: seq<T>)
    requires ShuffleDraws(|s|, js) && |ps| == |s|
    requires forall k :: 0 <= k < |s| ==> 0 <= ps[k] < |all| && s[k] == all[ps[k]]
    ensures forall k :: 0 <= k < |s| ==> 0 <= Shuffle(ps, js)[k] < |all|
    ensures forall k :: 0 <= k < |s| ==> Shuffle(s, js)[k] == all[Shuffle(ps, js)[k]]
    decreases |s|
  {
    if |s| > 1 {
      MovesTogether(Swap(s, |s| - 1, js[0])[..|s| - 1], Swap(ps, |s| - 1, js[0])[..|s| - 1], js[1..], all);
    }
  }

  // ---------------------------------------------------------------------------------
  // The generator
  // ---------------------------------------------------------------------------------

  /** The values `randomInt` can return, in call order: one per active class, one per remaining
      character, then the shuffle. */
  ghost predicate PossibleDraws(o: Options, draws: seq<nat>) {
    var n := ClampedLength(o);
    |draws| == 2 * n - 1 && PickDraws(ActiveCharsets(o), n, draws) && ShuffleDraws(n, draws[n..])
  }

  ghost predicate PickDraws(sets: seq<string>, n: nat, draws: seq<nat>) {
    |sets| <= n <= |draws| &&
    (forall i :: 0 <= i < |sets| ==> draws[i] < |sets[i]|) &&
    (forall i :: |sets| <= i < n ==> draws[i] < |Join(sets)|)
  }

  /** One character of each class, then characters of any class up to the length. */
  function Picked(sets: seq<string>, n: nat, draws: seq<nat>): (s: string)
    requires PickDraws(sets, n, draws)
    ensures |s| == n
    ensures forall i :: 0 <= i < |sets| ==> s[i] == sets[i][draws[i]]
    ensures forall i :: |sets| <= i < n ==> s[i] == Join(sets)[draws[i]]
  {
    var required := seq(|sets|, i requires 0 <= i < |sets| => sets[i][draws[i]]);
    var all := Join(sets);
    var remaining := seq(n - |sets|, i requires 0 <= i < n - |sets| => all[draws[|sets| + i]]);
    required + remaining
  }

  function Drawn(o: Options, draws: seq<nat>): (s: string)
    requires PossibleDraws(o, draws)
    ensures |s| == ClampedLength(o)
  {
    Picked(ActiveCharsets(o), ClampedLength(o), draws)
  }

  ghost function Generated(o: Options, draws: seq<nat>): string
    requires PossibleDraws(o, draws)
  {
    Shuffle(Drawn(o, draws), draws[ClampedLength(o)..])
  }

  method ShuffleInPlace(chars: array<char>, js: seq<nat>)
    requires ShuffleDraws(chars.Length, js)
    modifies chars
    ensures chars[..] == Shuffle(old(chars[..]), js)
  {
    if chars.Length == 0 { return; }
    hide Shuffle, Resumed;
    var i := chars.Length - 1;
    ResumedStart(chars[..], js);
    while i > 0
      invariant 0 <= i < chars.Length
      invariant Shuffle(old(chars[..]), js) == Resumed(chars[..], i, js)
    {
      var j := js[chars.Length - 1 - i];
      ResumedStep(chars[..], i, js);
      ghost var swapped := Swap(chars[..], i, j);
      chars[i], chars[j] := chars[j], chars[i];
      assert chars[..] == swapped;
      i := i - 1;
    }
    ResumedEnd(chars[..], js);
  }

  /** The result of a shuffle that still has to place positions 0..i. */
  ghost function Resumed<T>(s: seq<T>, i: nat, js: seq<nat>): seq<T>
    requires i < |s| && ShuffleDraws(|s|, js)
  {
    Shuffle(s[..i + 1], js[|s| - 1 - i..]) + s[i + 1..]
  }

  lemma ResumedStart<T>(s: seq<T>, js: seq<nat>)
    requires |s| > 0 && ShuffleDraws(|s|, js)
    ensures Resumed(s, |s| - 1, js) == Shuffle(s, js)
  {
    assert s[..|s|] == s && js[0..] == js;
  }

  lemma ResumedEnd<T>(s: seq<T>, js: seq<nat>)
    requires |s| > 0 && ShuffleDraws(|s|, js)
    ensures Resumed(s, 0, js) == s
  {
    assert s == s[..1] + s[1..];
  }

  lemma ResumedStep<T>(s: seq<T>, i: nat, js: seq<nat>)
    requires 0 < i < |s| && ShuffleDraws(|s|, js)
    ensures js[|s| - 1 - i] <= i
    ensures Resumed(s, i, js) == Resumed(Swap(s, i, js[|s| - 1 - i]), i - 1, js)
  {
    var head, pending := s[..i + 1], js[|s| - 1 - i..];
    var next := Swap(s, i, pending[0]);
    assert next[..i] == Swap(head, i, pending[0])[..i];
    assert next[i..] == [next[i]] + s[i + 1..];
    assert pending[1..] == js[|s| - i..];
  }

  /** The classes the flags select, or all four when they select none. */
  method CharsetsFor(o: Options) returns (activeCharsets: seq<string>)
    ensures activeCharsets == ActiveCharsets(o)
  {
    hide Join;
    var charsets: seq<string> := [];
    if Included(o.includeUppercase) { charsets := charsets + [UPPERCASE]; }
    if Included(o.includeLowercase) { charsets := charsets + [LOWERCASE]; }
    if Included(o.includeNumbers) { charsets := charsets + [NUMBERS]; }
    if Included(o.includeSymbols) { charsets := charsets + [SYMBOLS]; }
    assert charsets == SelectedCharsets(o);
    activeCharsets := if |charsets| > 0 then charsets else [UPPERCASE, LOWERCASE, NUMBERS, SYMBOLS];
  }

  method GeneratePassword(o: Options, draws: seq<nat>) returns (password: string)
    requires PossibleDraws(o, draws)
    ensures password == Generated(o, draws)
    ensures Promised(o, password)
  {
    hide Shuffle, Picked, Promised, Acceptable, ActiveCharsets, ClampedLength;
    GeneratedAcceptable(o, draws);
    AcceptableIsPromised(o, Generated(o, draws));
    var activeCharsets := CharsetsFor(o);
    var picked := Picked(activeCharsets, ClampedLength(o), draws);
    var chars := new char[|picked|](i requires 0 <= i < |picked| => picked[i]);
    assert chars[..] == picked;
    ShuffleInPlace(chars, draws[|picked|..]);
    password := chars[..];
  }

  // ---------------------------------------------------------------------------------
  // Exact support
  // ---------------------------------------------------------------------------------

  /** What a generated password promises: its length, its alphabet, and every active class. */
  ghost predicate Acceptable(o: Options, w: string) {
    |w| == ClampedLength(o) &&
    (forall c :: c in w ==> c in Join(ActiveCharsets(o))) &&
    HasEach(ActiveCharsets(o), w)
  }

  ghost predicate HasEach(sets: seq<string>, w: string) {
    forall k :: 0 <= k < |sets| ==> Meets(sets[k], w)
  }

  ghost predicate Meets(charset: string, w: string) {
    exists i :: 0 <= i < |w| && w[i] in charset
  }

  ghost predicate PairwiseDisjoint(sets: seq<string>) {
    forall k, l :: 0 <= k < l < |sets| ==> Apart(sets[k], sets[l])
  }

  ghost predicate Apart(a: string, b: string) {
    forall c :: c in a ==> c !in b
  }

  ghost function Kind(c: char): nat {
    if 'A' <= c <= 'Z' then 0 else if 'a' <= c <= 'z' then 1 else if '0' <= c <= '9' then 2 else 3
  }

  ghost predicate OfKind(s: string, kind: nat) {
    forall i :: 0 <= i < |s| ==> Kind(s[i]) == kind
  }

  lemma ClassKinds()
    ensures OfKind(UPPERCASE, 0) && OfKind(LOWERCASE, 1) && OfKind(NUMBERS, 2) && OfKind(SYMBOLS, 3)
  {
  }

  lemma KindsApart(a: string, k: nat, b: string, l: nat)
    requires OfKind(a, k) && OfKind(b, l) && k != l
    ensures Apart(a, b)
  {
  }

  lemma ClassesDisjoint(o: Options)
    ensures PairwiseDisjoint(ActiveCharsets(o))
  {
    hide OfKind, Apart, Kind;
    ClassKinds();
    KindsApart(UPPERCASE, 0, LOWERCASE, 1);
    KindsApart(UPPERCASE, 0, NUMBERS, 2);
    KindsApart(UPPERCASE, 0, SYMBOLS, 3);
    KindsApart(LOWERCASE, 1, NUMBERS, 2);
    KindsApart(LOWERCASE, 1, SYMBOLS, 3);
    KindsApart(NUMBERS, 2, SYMBOLS, 3);
  }

  lemma {:induction false} JoinCovers(sets: seq<string>, k: nat, c: char)
    requires k < |sets| && c in sets[k]
    ensures c in Join(sets)
  {
    if k > 0 {
      JoinCovers(sets[1..], k - 1, c);
    }
  }

  /** w rearranged so that position k holds a character of class k. */
  ghost function Gather(sets: seq<string>, w: string): (g: string)
    requires PairwiseDisjoint(sets) && HasEach(sets, w)
    ensures multiset(g) == multiset(w)
    ensures |sets| <= |g| == |w| && forall k :: 0 <= k < |sets| ==> g[k] in sets[k]
    decreases |sets|
  {
    if sets == [] then w else
    assert Meets(sets[0], w);
    var i :| 0 <= i < |w| && w[i] in sets[0];
    GatherStep(sets, w, i);
    var tail := Gather(sets[1..], w[..i] + w[i + 1..]);
    assert forall k :: 1 <= k < |sets| ==> sets[k] == sets[1..][k - 1];
    [w[i]] + tail
  }

  lemma GatherStep(sets: seq<string>, w: string, i: nat)
    requires sets != [] && PairwiseDisjoint(sets) && HasEach(sets, w) && i < |w| && w[i] in sets[0]
    ensures PairwiseDisjoint(sets[1..]) && HasEach(sets[1..], w[..i] + w[i + 1..])
    ensures multiset([w[i]] + (w[..i] + w[i + 1..])) == multiset(w)
  {
    var rest := w[..i] + w[i + 1..];
    assert w == w[..i] + ([w[i]] + w[i + 1..]);
    forall k | 0 <= k < |sets[1..]|
      ensures Meets(sets[1..][k], rest)
    {
      assert sets[1..][k] == sets[k + 1] && Apart(sets[0], sets[k + 1]) && Meets(sets[k + 1], w);
      var m :| 0 <= m < |w| && w[m] in sets[k + 1];
      assert rest[if m < i then m else m - 1] == w[m];
    }
  }

  /** Every generated password is acceptable. */
  lemma GeneratedAcceptable(o: Options, draws: seq<nat>)
    requires PossibleDraws(o, draws)
    ensures Acceptable(o, Generated(o, draws))
  {
    var sets := ActiveCharsets(o);
    var s, w := Drawn(o, draws), Generated(o, draws);
    ShufflePermutes(s, draws[|s|..]);
    forall c | c in w
      ensures c in Join(sets)
    {
      assert c in multiset(s);
      var i :| 0 <= i < |s| && s[i] == c;
      if i < |sets| {
        JoinCovers(sets, i, c);
      }
    }
    forall k | 0 <= k < |sets|
      ensures Meets(sets[k], w)
    {
      assert s[k] in multiset(w);
      var i :| 0 <= i < |w| && w[i] == s[k];
    }
  }

  /** The picks that produce g, when g starts with one character of each class. */
  ghost function PicksFor(sets: seq<string>, g: string): (picks: seq<nat>)
    requires |sets| <= |g| && forall k :: 0 <= k < |sets| ==> g[k] in sets[k]
    requires forall k :: |sets| <= k < |g| ==> g[k] in Join(sets)
    ensures |picks| == |g| && PickDraws(sets, |g|, picks) && Picked(sets, |g|, picks) == g
  {
    seq(|g|, i requires 0 <= i < |g| => if i < |sets| then FirstIndex(sets[i], g[i]) else FirstIndex(Join(sets), g[i]))
  }

  /** The draws that produce w: pick the gathered string, then shuffle it into w. */
  lemma GatheredThenShuffled(sets: seq<string>, w: string) returns (draws: seq<nat>)
    requires PairwiseDisjoint(sets) && HasEach(sets, w)
    requires forall c :: c in w ==> c in Join(sets)
    ensures |draws| >= |w| && PickDraws(sets, |w|, draws) && ShuffleDraws(|w|, draws[|w|..])
    ensures Shuffle(Picked(sets, |w|, draws), draws[|w|..]) == w
  {
    var g := Gather(sets, w);
    ShuffleOnto(g, w);
    forall k | 0 <= k < |w|
      ensures g[k] in Join(sets)
    {
      assert g[k] in multiset(w);
    }
    var picks := PicksFor(sets, g);
    draws := picks + Unshuffle(g, w);
    assert draws[|w|..] == Unshuffle(g, w);
    LaterDrawsUnused(sets, |w|, picks, Unshuffle(g, w));
  }

  lemma LaterDrawsUnused(sets: seq<string>, n: nat, picks: seq<nat>, more: seq<nat>)
    requires |picks| == n && PickDraws(sets, n, picks)
    ensures PickDraws(sets, n, picks + more) && Picked(sets, n, picks + more) == Picked(sets, n, picks)
  {
  }

  lemma AcceptableReached(o: Options, w: string) returns (draws: seq<nat>)
    requires Acceptable(o, w)
    ensures PossibleDraws(o, draws) && Generated(o, draws) == w
  {
    ClassesDisjoint(o);
    draws := GatheredThenShuffled(ActiveCharsets(o), w);
  }

  // ---------------------------------------------------------------------------------
  // The promise to the caller, in numbers, flags and characters
  // ---------------------------------------------------------------------------------

  /** The requested length between 8 and 64, 16 when none is given. */
  ghost predicate PromisedLength(length: Option<int>, n: nat) {
    (length == None ==> n == 16) &&
    (length.Some? && length.value < 8 ==> n == 8) &&
    (length.Some? && 8 <= length.value <= 64 ==> n == length.value) &&
    (length.Some? && length.value > 64 ==> n == 64)
  }

  /** A class is used when its flag is absent or true, and every class when all flags are false. */
  ghost predicate Used(o: Options, flag: Option<bool>) {
    flag != Some(false) ||
    (o.includeUppercase == Some(false) && o.includeLowercase == Some(false) &&
     o.includeNumbers == Some(false) && o.includeSymbols == Some(false))
  }

  ghost predicate FromUsedClass(o: Options, c: char) {
    (Used(o, o.includeUppercase) && c in "ABCDEFGHJKLMNPQRSTUVWXYZ") ||
    (Used(o, o.includeLowercase) && c in "abcdefghijkmnpqrstuvwxyz") ||
    (Used(o, o.includeNumbers) && c in "23456789") ||
    (Used(o, o.includeSymbols) && c in "!@#$%^&*()-_=+[]{}")
  }

  ghost predicate Promised(o: Options, w: string) {
    PromisedLength(o.length, |w|) &&
    (forall c :: c in w ==> FromUsedClass(o, c)) &&
    (Used(o, o.includeUppercase) ==> Meets("ABCDEFGHJKLMNPQRSTUVWXYZ", w)) &&
    (Used(o, o.includeLowercase) ==> Meets("abcdefghijkmnpqrstuvwxyz", w)) &&
    (Used(o, o.includeNumbers) ==> Meets("23456789", w)) &&
    (Used(o, o.includeSymbols) ==> Meets("!@#$%^&*()-_=+[]{}", w))
  }

  /** The letters and digits a promised password can have: no I, O, l, o, 0 or 1. */
  lemma NothingConfusing(o: Options, w: string, c: char)
    requires Promised(o, w) && c in w
    ensures ('A' <= c <= 'Z' && c != 'I' && c != 'O') || ('a' <= c <= 'z' && c != 'l' && c != 'o') ||
            '2' <= c <= '9' || c in "!@#$%^&*()-_=+[]{}"
  {
    assert FromUsedClass(o, c);
  }

  lemma LengthIsPromised(o: Options, n: nat)
    ensures n == ClampedLength(o) <==> PromisedLength(o.length, n)
  {
  }

  lemma {:induction false} JoinMembers(sets: seq<string>, c: char)
    ensures c in Join(sets) <==> exists k :: 0 <= k < |sets| && c in sets[k]
  {
    if sets != [] {
      JoinMembers(sets[1..], c);
      if k :| 0 <= k < |sets| && c in sets[k] {
        assert k > 0 ==> sets[1..][k - 1] == sets[k];
      }
    }
  }

  /** The active classes are the used ones. */
  lemma ActiveAreUsed(o: Options, charset: string)
    ensures charset in ActiveCharsets(o) <==>
              (Used(o, o.includeUppercase) && charset == UPPERCASE) ||
              (Used(o, o.includeLowercase) && charset == LOWERCASE) ||
              (Used(o, o.includeNumbers) && charset == NUMBERS) || (Used(o, o.includeSymbols) && charset == SYMBOLS)
  {
    SelectedMembers(o, charset);
    FirstSelected(o);
  }

  lemma SelectedMembers(o: Options, charset: string)
    ensures charset in SelectedCharsets(o) <==>
              (o.includeUppercase != Some(false) && charset == UPPERCASE) ||
              (o.includeLowercase != Some(false) && charset == LOWERCASE) ||
              (o.includeNumbers != Some(false) && charset == NUMBERS) ||
              (o.includeSymbols != Some(false) && charset == SYMBOLS)
  {
  }

  lemma FirstSelected(o: Options)
    ensures |SelectedCharsets(o)| == 0 <==>
              o.includeUppercase == Some(false) && o.includeLowercase == Some(false) &&
              o.includeNumbers == Some(false) && o.includeSymbols == Some(false)
  {
  }

  lemma AcceptableIsPromised(o: Options, w: string)
    ensures Acceptable(o, w) <==> Promised(o, w)
  {
    hide ActiveCharsets, Used, Meets, ClampedLength, PromisedLength, Join;
    LengthIsPromised(o, |w|);
    forall c
      ensures c in Join(ActiveCharsets(o)) <==> FromUsedClass(o, c)
    {
      UsedCharacters(o, c);
    }
    EachUsedMet(o, w);
  }

  lemma UsedCharacters(o: Options, c: char)
    ensures c in Join(ActiveCharsets(o)) <==> FromUsedClass(o, c)
  {
    hide ActiveCharsets, Used, Join;
    var sets := ActiveCharsets(o);
    JoinMembers(sets, c);
    ActiveAreUsed(o, UPPERCASE);
    ActiveAreUsed(o, LOWERCASE);
    ActiveAreUsed(o, NUMBERS);
    ActiveAreUsed(o, SYMBOLS);
    if k :| 0 <= k < |sets| && c in sets[k] {
      ActiveAreUsed(o, sets[k]);
    }
  }

  lemma EachUsedMet(o: Options, w: string)
    ensures HasEach(ActiveCharsets(o), w) <==>
              (Used(o, o.includeUppercase) ==> Meets(UPPERCASE, w)) &&
              (Used(o, o.includeLowercase) ==> Meets(LOWERCASE, w)) &&
              (Used(o, o.includeNumbers) ==> Meets(NUMBERS, w)) && (Used(o, o.includeSymbols) ==> Meets(SYMBOLS, w))
  {
    hide ActiveCharsets, Used, Meets;
    var sets := ActiveCharsets(o);
    ActiveAreUsed(o, UPPERCASE);
    ActiveAreUsed(o, LOWERCASE);
    ActiveAreUsed(o, NUMBERS);
    ActiveAreUsed(o, SYMBOLS);
    forall k | 0 <= k < |sets|
      ensures (Used(o, o.includeUppercase) && sets[k] == UPPERCASE) ||
              (Used(o, o.includeLowercase) && sets[k] == LOWERCASE) ||
              (Used(o, o.includeNumbers) && sets[k] == NUMBERS) || (Used(o, o.includeSymbols) && sets[k] == SYMBOLS)
    {
      ActiveAreUsed(o, sets[k]);
    }
  }

  /** Exact support: the strings the generator can produce are exactly the promised ones. */
  lemma SupportExact(o: Options, w: string)
    ensures (exists draws :: PossibleDraws(o, draws) && Generated(o, draws) == w) <==> Promised(o, w)
  {
    AcceptableIsPromised(o, w);
    if Acceptable(o, w) {
      var draws := AcceptableReached(o, w);
      assert PossibleDraws(o, draws) && Generated(o, draws) == w;
    }
    forall draws | PossibleDraws(o, draws) && Generated(o, draws) == w
      ensures Acceptable(o, w)
    {
      GeneratedAcceptable(o, draws);
    }
  }
}
