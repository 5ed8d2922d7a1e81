/**
 Password generation with every random choice an input. A password is what the drawing and the
 shuffle make of a stream of random numbers; which passwords some stream gives is stated
 exactly, without reference to either.
 */
module Generator {
  import opened Results

  const MIN_LENGTH := 5
  const MAX_LENGTH := 128
  const AMBIGUOUS := "0Oo1lI|"

  datatype Charset = Upper | Lower | Number | Special

  datatype Options = Options(length: nat, sets: set<Charset>, avoidAmbiguous: bool, minNumbers: nat, minSpecial: nat)

  datatype Refusal = BadLength | NoSets | NoCharacters

  function Range(first: char, n: nat): string
    requires first as nat + n <= 128
  {
    seq(n, i requires 0 <= i < n => (first as nat + i) as char)
  }

  function Chars(k: Charset): string {
    match k
    case Upper => Range('A', 26)
    case Lower => Range('a', 26)
    case Number => Range('0', 10)
    case Special => "!@#$%^&*()_+-=[]{}|;:,.<>?"
  }

  function FilterCharset(chars: string, avoidAmbiguous: bool): (r: string)
    ensures forall c :: c in r <==> c in chars && !(avoidAmbiguous && c in AMBIGUOUS)
  {
    if chars == [] then []
    else
      var rest := FilterCharset(chars[1..], avoidAmbiguous);
      if avoidAmbiguous && chars[0] in AMBIGUOUS then rest else [chars[0]] + rest
  }

  function Pool(o: Options, k: Charset): string {
    if k in o.sets then FilterCharset(Chars(k), o.avoidAmbiguous) else []
  }

  function CombinedPool(o: Options): string {
    Pool(o, Upper) + Pool(o, Lower) + Pool(o, Number) + Pool(o, Special)
  }

  lemma Ranges(first: char, n: nat, c: char)
    requires first as nat + n <= 128
    ensures c in Range(first, n) <==> first as nat <= c as nat < first as nat + n
  {
    if first as nat <= c as nat < first as nat + n {
      assert Range(first, n)[c as nat - first as nat] == c;
    }
  }

  // Four ranges that no two sets share.
  predicate Within(k: Charset, c: char) {
    match k
    case Upper => 'A' <= c <= 'Z'
    case Lower => 'a' <= c <= 'z'
    case Number => '0' <= c <= '9'
    case Special => !('A' <= c <= 'Z') && !('a' <= c <= 'z') && !('0' <= c <= '9')
  }

  lemma SpecialsWithin(c: char)
    requires c in Chars(Special)
    ensures Within(Special, c)
  {
    var i :| 0 <= i < 26 && c == Chars(Special)[i];
  }

  lemma PoolWithin(o: Options, k: Charset, c: char)
    requires c in Pool(o, k)
    ensures Within(k, c)
  {
    match k
    case Upper => Ranges('A', 26, c);
    case Lower => Ranges('a', 26, c);
    case Number => Ranges('0', 10, c);
    case Special => SpecialsWithin(c);
  }

  // A set is enabled exactly when there is something to draw from it.
  lemma PoolsHaveCharacters(o: Options, k: Charset)
    ensures Pool(o, k) != [] <==> k in o.sets
  {
    match k
    case Upper => Ranges('A', 26, 'A');
    case Lower => Ranges('a', 26, 'a');
    case Number => Ranges('0', 10, '2');
    case Special => assert Chars(Special)[0] == '!';
  }

  // ----- which positions are drawn from which set, before the shuffle -----

  function Min(a: nat, b: nat): nat {
    if a <= b then a else b
  }

  function Digits(o: Options): (n: nat)
    ensures n <= o.length
  {
    if Number in o.sets then Min(o.minNumbers, o.length) else 0
  }

  function Specials(o: Options): (n: nat)
    ensures Digits(o) + n <= o.length
  {
    if Special in o.sets then Min(o.minSpecial, o.length - Digits(o)) else 0
  }

  function Uppers(o: Options): (n: nat)
    ensures Digits(o) + Specials(o) + n <= o.length
  {
    if Upper in o.sets then Min(1, o.length - Digits(o) - Specials(o)) else 0
  }

  function Lowers(o: Options): (n: nat)
    ensures Digits(o) + Specials(o) + Uppers(o) + n <= o.length
  {
    if Lower in o.sets then Min(1, o.length - Digits(o) - Specials(o) - Uppers(o)) else 0
  }

  // The set that a position is drawn from: digits first, then special characters, then one
  // upper and one lower case letter, then any.
  function Slot(o: Options, i: nat): (k: Option<Charset>)
    ensures k.Some? ==> k.value in o.sets
  {
    if i < Digits(o) then Some(Number)
    else if i < Digits(o) + Specials(o) then Some(Special)
    else if i < Digits(o) + Specials(o) + Uppers(o) then Some(Upper)
    else if i < Digits(o) + Specials(o) + Uppers(o) + Lowers(o) then Some(Lower)
    else None
  }

  function PoolAt(o: Options, i: nat): string {
    match Slot(o, i)
    case Some(k) => Pool(o, k)
    case None => CombinedPool(o)
  }

  predicate Valid(o: Options) {
    MIN_LENGTH <= o.length <= MAX_LENGTH && o.sets != {}
  }

  // Nothing is ever drawn from an empty pool.
  lemma CombinedNeverEmpty(o: Options)
    requires Valid(o)
    ensures CombinedPool(o) != []
  {
    var k :| k in o.sets;
    PoolsHaveCharacters(o, k);
    var c := Pool(o, k)[0];
    match k
    case Upper => assert c in CombinedPool(o);
    case Lower => assert c in CombinedPool(o);
    case Number => assert c in CombinedPool(o);
    case Special => assert c in CombinedPool(o);
  }

  lemma PoolsNeverEmpty(o: Options, i: nat)
    requires Valid(o)
    ensures PoolAt(o, i) != []
  {
    hide Pool;
    hide CombinedPool;
    CombinedNeverEmpty(o);
    if Slot(o, i).Some? {
      PoolsHaveCharacters(o, Slot(o, i).value);
    }
  }

  // ----- drawing and shuffling -----

  // A stream of random numbers.
  type Draws = nat -> nat

  function Pick(pool: string, d: nat): (c: char)
    requires pool != []
    ensures c in pool
  {
    pool[d % |pool|]
  }

  function Drawn(o: Options, f: Draws, at: nat): (s: string)
    requires Valid(o)
    ensures |s| == o.length
  {
    seq(o.length, i requires 0 <= i < o.length => PoolsNeverEmpty(o, i); Pick(PoolAt(o, i), f(at + i)))
  }

  function Swap(s: string, i: nat, j: nat): (r: string)
    requires i < |s| && j < |s|
    ensures |r| == |s|
  {
    s[i := s[j]][j := s[i]]
  }

  // Fisher and Yates: the last place gets any of the elements, then the places before it.
  function Shuffled(s: string, f: Draws, at: nat): (r: string)
    ensures |r| == |s|
    decreases |s|
  {
    if |s| <= 1 then s
    else
      var n := |s| - 1;
      var r := Swap(s, n, f(at) % |s|);
      Shuffled(r[..n], f, at + 1) + [r[n]]
  }

  function Password(o: Options, f: Draws, at: nat): string
    requires Valid(o)
  {
    Shuffled(Drawn(o, f, at), f, at + o.length)
  }

  lemma SwapKeeps(s: string, i: nat, j: nat)
    requires i < |s| && j < |s|
    ensures multiset(Swap(s, i, j)) == multiset(s)
    ensures Swap(s, i, j)[i] == s[j]
  {
  }

  lemma LastOff(s: string)
    requires s != []
    ensures multiset(s) == multiset(s[..|s| - 1]) + multiset{s[|s| - 1]}
  {
    assert s == s[..|s| - 1] + [s[|s| - 1]];
  }

  lemma Same(s: string, t: string, n: nat)
    requires |s| == |t| == n + 1 && s[..n] == t[..n] && s[n] == t[n]
    ensures s == t
  {
    assert s == s[..n] + [s[n]] && t == t[..n] + [t[n]];
  }

  lemma {:induction false} ShuffleKeeps(s: string, f: Draws, at: nat)
    ensures multiset(Shuffled(s, f, at)) == multiset(s)
    decreases |s|
  {
    hide Swap;
    if |s| > 1 {
      var n := |s| - 1;
      var r := Swap(s, n, f(at) % |s|);
      SwapKeeps(s, n, f(at) % |s|);
      ShuffleKeeps(r[..n], f, at + 1);
      LastOff(r);
    }
  }

  // The element wanted at the end is somewhere, and a swap puts it there.
  lemma BringToEnd(s: string, t: string, n: nat) returns (j: nat)
    requires |s| == |t| == n + 1 && multiset(s) == multiset(t)
    ensures j <= n
    ensures var r := Swap(s, n, j); r[n] == t[n] && multiset(r[..n]) == multiset(t[..n])
  {
    hide Swap;
    assert t[n] in multiset(s);
    j :| 0 <= j < |s| && s[j] == t[n];
    SwapKeeps(s, n, j);
    LastOff(Swap(s, n, j));
    LastOff(t);
    assert multiset(Swap(s, n, j)[..n]) == multiset(s) - multiset{t[n]};
    assert multiset(t[..n]) == multiset(s) - multiset{t[n]};
  }

  lemma ShortSame(s: string, t: string, f: Draws, at: nat)
    requires multiset(s) == multiset(t) && |s| == |t| <= 1
    ensures Shuffled(s, f, at) == t
  {
    if |s| == 1 {
      assert s == [s[0]];
      assert s[0] in multiset(t);
    }
  }

  lemma SmallModulo(d: nat, n: nat)
    requires d < n
    ensures d % n == d
  {
  }

  lemma ShuffleStep(s: string, f: Draws, at: nat, n: nat, j: nat)
    requires |s| == n + 1 > 1 && j == f(at) % |s|
    ensures var r := Swap(s, n, j); Shuffled(s, f, at) == Shuffled(r[..n], f, at + 1) + [r[n]]
  {
  }

  // Every order is one that some random numbers give.
  lemma {:induction false} ShuffleReaches(s: string, t: string, f: Draws, at: nat) returns (g: Draws)
    requires multiset(s) == multiset(t) && |s| == |t|
    ensures forall i :: 0 <= i < at ==> g(i) == f(i)
    ensures Shuffled(s, g, at) == t
    decreases |s|
  {
    hide Swap;
    hide Shuffled;
    if |s| <= 1 {
      ShortSame(s, t, f, at);
      g := f;
    } else {
      var n := |s| - 1;
      var j := BringToEnd(s, t, n);
      var r := Swap(s, n, j);
      var h: Draws := (i: nat) => if i == at then j else f(i);
      g := ShuffleReaches(r[..n], t[..n], h, at + 1);
      assert g(at) == h(at) == j;
      SmallModulo(j, |s|);
      ShuffleStep(s, g, at, n, j);
      Same(Shuffled(s, g, at), t, n);
    }
  }

  // ----- how many of each set -----

  function Count(s: string, pool: string): nat {
    if s == [] then 0 else Count(s[..|s| - 1], pool) + if s[|s| - 1] in pool then 1 else 0
  }

  // Where a set's own positions start, and how many it has.
  function Start(o: Options, k: Charset): nat {
    match k
    case Number => 0
    case Special => Digits(o)
    case Upper => Digits(o) + Specials(o)
    case Lower => Digits(o) + Specials(o) + Uppers(o)
  }

  function Quota(o: Options, k: Charset): nat {
    match k
    case Number => Digits(o)
    case Special => Specials(o)
    case Upper => Uppers(o)
    case Lower => Lowers(o)
  }

  ghost predicate Acceptable(o: Options, p: string) {
    && |p| == o.length
    && (forall i :: 0 <= i < |p| ==> p[i] in CombinedPool(o))
    && (forall k :: Count(p, Pool(o, k)) >= Quota(o, k))
  }

  lemma {:induction false} CountConcat(s: string, t: string, pool: string)
    ensures Count(s + t, pool) == Count(s, pool) + Count(t, pool)
    decreases |t|
  {
    if t == [] {
      assert s + t == s;
    } else {
      CountConcat(s, t[..|t| - 1], pool);
      assert (s + t)[..|s + t| - 1] == s + t[..|t| - 1];
    }
  }

  function Without(s: string, j: nat): (r: string)
    requires j < |s|
    ensures |r| == |s| - 1
  {
    s[..j] + s[j + 1..]
  }

  lemma WithoutKeeps(s: string, j: nat, pool: string)
    requires j < |s|
    ensures Count(s, pool) == Count(Without(s, j), pool) + if s[j] in pool then 1 else 0
  {
    assert s == s[..j] + ([s[j]] + s[j + 1..]);
    assert [s[j]][..0] == [];
    CountConcat(s[..j], [s[j]] + s[j + 1..], pool);
    CountConcat([s[j]], s[j + 1..], pool);
    CountConcat(s[..j], s[j + 1..], pool);
  }

  lemma WithoutMultiset(s: string, j: nat)
    requires j < |s|
    ensures multiset(s) == multiset(Without(s, j)) + multiset{s[j]}
  {
    assert s == s[..j] + ([s[j]] + s[j + 1..]);
  }

  lemma {:induction false} CountReordered(s: string, t: string, pool: string)
    requires multiset(s) == multiset(t) && |s| == |t|
    ensures Count(s, pool) == Count(t, pool)
    decreases |s|
  {
    if s != [] {
      var n := |s| - 1;
      assert s[n] in multiset(t);
      var j :| 0 <= j < |t| && t[j] == s[n];
      LastOff(s);
      WithoutMultiset(t, j);
      WithoutKeeps(t, j, pool);
      assert multiset(s[..n]) == multiset(s) - multiset{s[n]};
      assert multiset(Without(t, j)) == multiset(s) - multiset{s[n]};
      CountReordered(s[..n], Without(t, j), pool);
    }
  }

  lemma {:induction false} CountRange(s: string, pool: string, lo: nat, hi: nat)
    requires lo <= hi <= |s| && forall i :: lo <= i < hi ==> s[i] in pool
    ensures Count(s, pool) >= hi - lo
    decreases |s|
  {
    if lo < hi {
      var n := |s| - 1;
      CountRange(s[..n], pool, lo, if hi == |s| then n else hi);
    }
  }

  lemma SlotRange(o: Options, i: nat, k: Charset)
    ensures Slot(o, i) == Some(k) <==> Start(o, k) <= i < Start(o, k) + Quota(o, k)
    ensures Start(o, k) + Quota(o, k) <= o.length
  {
  }

  lemma PoolAtCombined(o: Options, i: nat, c: char)
    requires c in PoolAt(o, i)
    ensures c in CombinedPool(o)
  {
    hide Pool;
    hide Slot;
    match Slot(o, i)
    case None =>
    case Some(Upper) => assert c in Pool(o, Upper);
    case Some(Lower) => assert c in Pool(o, Lower);
    case Some(Number) => assert c in Pool(o, Number);
    case Some(Special) => assert c in Pool(o, Special);
  }

  // A drawn character comes from its position's pool.
  lemma DrawnAt(o: Options, f: Draws, at: nat, i: nat)
    requires Valid(o) && i < o.length
    ensures PoolAt(o, i) != [] && Drawn(o, f, at)[i] == Pick(PoolAt(o, i), f(at + i)) && Drawn(o, f, at)[i] in PoolAt(o, i)
  {
    hide PoolAt;
    PoolsNeverEmpty(o, i);
  }

  lemma DrawnAcceptable(o: Options, f: Draws, at: nat)
    requires Valid(o)
    ensures Acceptable(o, Drawn(o, f, at))
  {
    hide Slot;
    hide Pool;
    hide Pick;
    hide Drawn;
    hide CombinedPool;
    var s := Drawn(o, f, at);
    forall i | 0 <= i < |s| ensures s[i] in CombinedPool(o) {
      DrawnAt(o, f, at, i);
      PoolAtCombined(o, i, s[i]);
    }
    forall k ensures Count(s, Pool(o, k)) >= Quota(o, k) {
      SlotRange(o, 0, k);
      forall i | Start(o, k) <= i < Start(o, k) + Quota(o, k) ensures s[i] in Pool(o, k) {
        SlotRange(o, i, k);
        DrawnAt(o, f, at, i);
      }
      CountRange(s, Pool(o, k), Start(o, k), Start(o, k) + Quota(o, k));
    }
  }

  // What a shuffle gives is acceptable when what it is given is.
  lemma ReorderedAcceptable(o: Options, s: string, p: string)
    requires Acceptable(o, s) && multiset(s) == multiset(p) && |s| == |p|
    ensures Acceptable(o, p)
  {
    hide CombinedPool;
    hide Pool;
    hide Quota;
    hide Count;
    forall i | 0 <= i < |p| ensures p[i] in CombinedPool(o) {
      assert p[i] in multiset(s);
    }
    forall k ensures Count(p, Pool(o, k)) >= Quota(o, k) {
      CountReordered(s, p, Pool(o, k));
    }
  }

  // ----- what the options ask for -----

  predicate InSet(k: Charset, c: char) {
    match k
    case Upper => 'A' <= c <= 'Z'
    case Lower => 'a' <= c <= 'z'
    case Number => '0' <= c <= '9'
    case Special => c in "!@#$%^&*()_+-=[]{}|;:,.<>?"
  }

  predicate IsAmbiguous(c: char) {
    c == '0' || c == 'O' || c == 'o' || c == '1' || c == 'l' || c == 'I' || c == '|'
  }

  predicate MayContain(o: Options, c: char) {
    !(o.avoidAmbiguous && IsAmbiguous(c)) && exists k :: k in o.sets && InSet(k, c)
  }

  function CountSet(p: string, k: Charset): nat {
    if p == [] then 0 else CountSet(p[..|p| - 1], k) + if InSet(k, p[|p| - 1]) then 1 else 0
  }

  // The length asked for, characters of the enabled sets only, the digits asked for as far as they
  // fit, the special characters as far as they then fit, and a letter of each case as far as there
  // is room.
  predicate MeetsOptions(o: Options, p: string) {
    var digits := if Number !in o.sets then 0 else if o.minNumbers < o.length then o.minNumbers else o.length;
    var specials := if Special !in o.sets then 0 else if o.minSpecial < o.length - digits then o.minSpecial else o.length - digits;
    var uppers := if Upper in o.sets && digits + specials < o.length then 1 else 0;
    var lowers := if Lower in o.sets && digits + specials + uppers < o.length then 1 else 0;
    && |p| == o.length && (forall i :: 0 <= i < |p| ==> MayContain(o, p[i]))
    && CountSet(p, Number) >= digits && CountSet(p, Special) >= specials
    && CountSet(p, Upper) >= uppers && CountSet(p, Lower) >= lowers
  }

  lemma AmbiguousIs(c: char)
    ensures c in AMBIGUOUS <==> IsAmbiguous(c)
  {
    assert AMBIGUOUS == ['0', 'O', 'o', '1', 'l', 'I', '|'];
  }

  lemma PoolIs(o: Options, k: Charset, c: char)
    ensures c in Pool(o, k) <==> k in o.sets && InSet(k, c) && !(o.avoidAmbiguous && IsAmbiguous(c))
  {
    AmbiguousIs(c);
    match k
    case Upper => Ranges('A', 26, c);
    case Lower => Ranges('a', 26, c);
    case Number => Ranges('0', 10, c);
    case Special =>
  }

  lemma InCombined(o: Options, c: char)
    ensures c in CombinedPool(o) <==> c in Pool(o, Upper) || c in Pool(o, Lower) || c in Pool(o, Number) || c in Pool(o, Special)
  {
    hide Pool;
  }

  lemma CombinedIs(o: Options, c: char)
    ensures c in CombinedPool(o) <==> MayContain(o, c)
  {
    hide CombinedPool;
    hide Pool;
    hide InSet;
    InCombined(o, c);
    forall k ensures c in Pool(o, k) <==> k in o.sets && InSet(k, c) && !(o.avoidAmbiguous && IsAmbiguous(c)) {
      PoolIs(o, k, c);
    }
    if c in CombinedPool(o) {
      var k := if c in Pool(o, Upper) then Upper else if c in Pool(o, Lower) then Lower else if c in Pool(o, Number) then Number else Special;
      assert k in o.sets && InSet(k, c);
    } else if MayContain(o, c) {
      var k :| k in o.sets && InSet(k, c);
      assert c in Pool(o, k);
      match k
      case Upper =>
      case Lower =>
      case Number =>
      case Special =>
    }
  }

  lemma {:induction false} CountIs(o: Options, p: string, k: Charset)
    requires k in o.sets && forall i :: 0 <= i < |p| ==> MayContain(o, p[i])
    ensures Count(p, Pool(o, k)) == CountSet(p, k)
    decreases |p|
  {
    hide Pool;
    hide InSet;
    if p != [] {
      CountIs(o, p[..|p| - 1], k);
      PoolIs(o, k, p[|p| - 1]);
    }
  }

  lemma CountWhereEnabled(o: Options, p: string, k: Charset)
    requires forall i :: 0 <= i < |p| ==> MayContain(o, p[i])
    ensures Count(p, Pool(o, k)) >= Quota(o, k) <==> CountSet(p, k) >= Quota(o, k)
  {
    hide Pool;
    hide MayContain;
    hide Count;
    hide CountSet;
    if k in o.sets {
      CountIs(o, p, k);
    }
  }

  lemma QuotasAre(o: Options)
    ensures var digits := if Number !in o.sets then 0 else if o.minNumbers < o.length then o.minNumbers else o.length;
            var specials := if Special !in o.sets then 0 else if o.minSpecial < o.length - digits then o.minSpecial else o.length - digits;
            var uppers := if Upper in o.sets && digits + specials < o.length then 1 else 0;
            var lowers := if Lower in o.sets && digits + specials + uppers < o.length then 1 else 0;
            Quota(o, Number) == digits && Quota(o, Special) == specials && Quota(o, Upper) == uppers && Quota(o, Lower) == lowers
  {
  }

  lemma AcceptableIs(o: Options, p: string)
    ensures Acceptable(o, p) <==> MeetsOptions(o, p)
  {
    hide CombinedPool;
    hide Pool;
    hide Count;
    hide CountSet;
    hide MayContain;
    hide Quota;
    forall i | 0 <= i < |p| ensures p[i] in CombinedPool(o) <==> MayContain(o, p[i]) {
      CombinedIs(o, p[i]);
    }
    QuotasAre(o);
    if forall i :: 0 <= i < |p| ==> MayContain(o, p[i]) {
      forall k ensures Count(p, Pool(o, k)) >= Quota(o, k) <==> CountSet(p, k) >= Quota(o, k) {
        CountWhereEnabled(o, p, k);
      }
      if MeetsOptions(o, p) {
        forall k ensures CountSet(p, k) >= Quota(o, k) {
          match k
          case Upper =>
          case Lower =>
          case Number =>
          case Special =>
        }
      }
    }
  }

  // ----- exactly these -----

  lemma PasswordAcceptable(o: Options, f: Draws, at: nat)
    requires Valid(o)
    ensures MeetsOptions(o, Password(o, f, at))
  {
    hide MeetsOptions;
    hide Acceptable;
    hide Drawn;
    hide Shuffled;
    var s := Drawn(o, f, at);
    DrawnAcceptable(o, f, at);
    ShuffleKeeps(s, f, at + o.length);
    ReorderedAcceptable(o, s, Password(o, f, at));
    AcceptableIs(o, Password(o, f, at));
  }

  // How many positions of a set are still to come.
  function Owed(o: Options, k: Charset, i: nat): nat {
    if i <= Start(o, k) then Quota(o, k)
    else if i < Start(o, k) + Quota(o, k) then Start(o, k) + Quota(o, k) - i
    else 0
  }

  lemma OwedStep(o: Options, k: Charset, i: nat)
    ensures Owed(o, k, i) == Owed(o, k, i + 1) + if Slot(o, i) == Some(k) then 1 else 0
  {
    hide Slot;
    SlotRange(o, i, k);
  }

  lemma NothingOwed(o: Options, k: Charset, i: nat)
    requires Slot(o, i).None?
    ensures Owed(o, k, i) == 0
  {
  }

  predicate Suffices(o: Options, m: string, i: nat) {
    && |m| + i == o.length
    && (forall j :: 0 <= j < |m| ==> m[j] in CombinedPool(o))
    && (forall k :: Count(m, Pool(o, k)) >= Owed(o, k, i))
  }

  lemma {:induction false} CountedExists(s: string, pool: string) returns (j: nat)
    requires Count(s, pool) > 0
    ensures j < |s| && s[j] in pool
  {
    if s[|s| - 1] in pool {
      j := |s| - 1;
    } else {
      j := CountedExists(s[..|s| - 1], pool);
    }
  }

  lemma PoolsDisjoint(o: Options, k: Charset, l: Charset, c: char)
    requires c in Pool(o, k) && c in Pool(o, l)
    ensures k == l
  {
    PoolWithin(o, k, c);
    PoolWithin(o, l, c);
  }

  // The next position can be filled so that what is left suffices for the rest.
  lemma NextCharacter(o: Options, m: string, i: nat) returns (j: nat)
    requires Suffices(o, m, i) && i < o.length
    ensures j < |m| && m[j] in PoolAt(o, i) && Suffices(o, Without(m, j), i + 1)
  {
    hide Pool;
    hide CombinedPool;
    hide Slot;
    hide Count;
    hide Owed;
    match Slot(o, i) {
      case None => j := 0;
      case Some(k) =>
        OwedStep(o, k, i);
        j := CountedExists(m, Pool(o, k));
    }
    forall k ensures Count(Without(m, j), Pool(o, k)) >= Owed(o, k, i + 1) {
      OwedStep(o, k, i);
      WithoutKeeps(m, j, Pool(o, k));
      if Slot(o, i).None? {
        NothingOwed(o, k, i);
      } else if m[j] in Pool(o, k) {
        PoolsDisjoint(o, k, Slot(o, i).value, m[j]);
      }
    }
  }

  lemma LeftOver(o: Options, m: string, i: nat)
    requires Suffices(o, m, i) && m != []
    ensures i < o.length
  {
  }

  // The characters of an acceptable password in an order in which they can be drawn.
  lemma {:induction false} Arrange(o: Options, m: string, i: nat) returns (r: string)
    requires Suffices(o, m, i)
    ensures |r| == |m| && multiset(r) == multiset(m)
    ensures forall l :: 0 <= l < |r| ==> r[l] in PoolAt(o, i + l)
    decreases |m|
  {
    hide Suffices;
    hide PoolAt;
    hide Without;
    if m == [] {
      r := [];
    } else {
      LeftOver(o, m, i);
      var j := NextCharacter(o, m, i);
      var rest := Arrange(o, Without(m, j), i + 1);
      WithoutMultiset(m, j);
      r := [m[j]] + rest;
      forall l | 0 <= l < |r| ensures r[l] in PoolAt(o, i + l) {
        if l > 0 {
          assert r[l] == rest[l - 1] && i + l == i + 1 + (l - 1);
        }
      }
    }
  }

  function IndexOf(pool: string, c: char): (d: nat)
    ensures c in pool ==> d < |pool| && pool[d] == c
  {
    if pool == [] || pool[0] == c then 0 else 1 + IndexOf(pool[1..], c)
  }

  lemma Picks(pool: string, c: char)
    requires c in pool
    ensures Pick(pool, IndexOf(pool, c)) == c
  {
    hide IndexOf;
    SmallModulo(IndexOf(pool, c), |pool|);
  }

  // Random numbers that draw the given characters.
  lemma DrawReaches(o: Options, r: string) returns (f: Draws)
    requires Valid(o) && |r| == o.length
    requires forall i :: 0 <= i < |r| ==> r[i] in PoolAt(o, i)
    ensures forall g: Draws :: (forall i :: 0 <= i < o.length ==> g(i) == f(i)) ==> Drawn(o, g, 0) == r
  {
    hide PoolAt;
    hide Pick;
    hide IndexOf;
    hide Drawn;
    f := (i: nat) => if i < |r| then IndexOf(PoolAt(o, i), r[i]) else 0;
    forall g: Draws | forall i :: 0 <= i < o.length ==> g(i) == f(i)
      ensures Drawn(o, g, 0) == r
    {
      forall i | 0 <= i < o.length ensures Drawn(o, g, 0)[i] == r[i] {
        DrawnAt(o, g, 0, i);
        Picks(PoolAt(o, i), r[i]);
        assert g(0 + i) == f(i);
      }
    }
  }

  lemma PasswordReachable(o: Options, p: string) returns (f: Draws)
    requires 5 <= o.length <= 128 && o.sets != {} && MeetsOptions(o, p)
    ensures Password(o, f, 0) == p
  {
    hide MeetsOptions;
    AcceptableIs(o, p);
    hide Drawn;
    hide Shuffled;
    hide PoolAt;
    assert Suffices(o, p, 0);
    var r := Arrange(o, p, 0);
    assert forall l :: 0 <= l < |r| ==> r[l] in PoolAt(o, 0 + l);
    var d := DrawReaches(o, r);
    f := ShuffleReaches(r, p, d, o.length);
    assert Drawn(o, f, 0) == r;
  }

  // The generator gives every password that meets the options for some random numbers, and no
  // other.
  lemma PasswordsAreTheAcceptable(o: Options, p: string)
    requires 5 <= o.length <= 128 && o.sets != {}
    ensures (exists f: Draws :: Password(o, f, 0) == p) <==> MeetsOptions(o, p)
  {
    hide Password;
    hide MeetsOptions;
    if MeetsOptions(o, p) {
      var f := PasswordReachable(o, p);
    }
    forall f: Draws | Password(o, f, 0) == p
      ensures MeetsOptions(o, p)
    {
      PasswordAcceptable(o, f, 0);
    }
  }

  // ----- the same as the code runs it -----

  class Rng {
    const draws: Draws
    var used: nat

    constructor (draws: Draws)
      ensures this.draws == draws && used == 0
    {
      this.draws, used := draws, 0;
    }

    method Below(n: nat) returns (k: nat)
      requires n > 0
      modifies this
      ensures k == draws(old(used)) % n && used == old(used) + 1
    {
      k := draws(used) % n;
      used := used + 1;
    }

    method Choose(pool: string) returns (c: char)
      requires pool != []
      modifies this
      ensures c == Pick(pool, draws(old(used))) && used == old(used) + 1
    {
      var k := Below(|pool|);
      c := pool[k];
    }
  }

  lemma Swapped(s: string, i: nat, j: nat, r: string)
    requires i < |s| == |r| && j < |s|
    requires r[i] == s[j] && r[j] == s[i] && forall k :: 0 <= k < |s| && k != i && k != j ==> r[k] == s[k]
    ensures r == Swap(s, i, j)
  {
  }

  lemma Short(s: string, f: Draws, at: nat)
    requires |s| <= 1
    ensures Shuffled(s, f, at) == s
  {
  }

  method Shuffle(a: array<char>, rng: Rng)
    modifies a, rng
    ensures a[..] == Shuffled(old(a[..]), rng.draws, old(rng.used))
  {
    hide Swap;
    hide Shuffled;
    var n := a.Length;
    ghost var goal := Shuffled(a[..], rng.draws, rng.used);
    assert a[..n] == a[..] && a[n..] == [];
    while n > 1
      invariant n <= a.Length
      invariant Shuffled(a[..n], rng.draws, rng.used) + a[n..] == goal
    {
      ghost var s, rest, at := a[..n], a[n..], rng.used;
      var j := rng.Below(n);
      a[n - 1], a[j] := a[j], a[n - 1];
      n := n - 1;
      Swapped(s, n, j, a[..n + 1]);
      ShuffleStep(s, rng.draws, at, n, j);
      assert a[n + 1..] == rest && a[n..] == [a[n]] + rest && a[..n] == a[..n + 1][..n];
      assert Shuffled(a[..n], rng.draws, at + 1) + [a[n]] + rest == goal;
    }
    Short(a[..n], rng.draws, rng.used);
    assert a[..n] + a[n..] == a[..];
  }

  // What has been pushed so far is what the random numbers draw for the first positions.
  ghost predicate Pushed(o: Options, result: array<char>, n: nat, rng: Rng, at: nat)
    requires Valid(o)
    reads result, rng
  {
    && result.Length == o.length && n <= o.length && rng.used == at + n
    && result[..n] == Drawn(o, rng.draws, at)[..n]
  }

  method Push(o: Options, ghost at: nat, result: array<char>, n: nat, pool: string, rng: Rng)
    requires Valid(o) && n < o.length && pool == PoolAt(o, n) && Pushed(o, result, n, rng, at)
    modifies result, rng
    ensures Pushed(o, result, n + 1, rng, at)
  {
    hide PoolAt;
    hide Pick;
    hide Drawn;
    PoolsNeverEmpty(o, n);
    DrawnAt(o, rng.draws, at, n);
    ghost var before := result[..n];
    var c := rng.Choose(pool);
    result[n] := c;
    assert result[..n + 1] == before + [c];
  }

  lemma SlotAt(o: Options, n: nat, k: Charset)
    requires Start(o, k) <= n < Start(o, k) + Quota(o, k)
    ensures PoolAt(o, n) == Pool(o, k)
  {
    hide Pool;
  }

  // Draws a number of characters from one set, which are its own positions.
  method PushFrom(o: Options, ghost at: nat, result: array<char>, n: nat, ghost k: Charset, pool: string, count: nat,
                  rng: Rng) returns (end: nat)
    requires Valid(o) && Pushed(o, result, n, rng, at)
    requires pool == Pool(o, k) && (count == 0 || n == Start(o, k)) && count <= Quota(o, k)
    modifies result, rng
    ensures end == n + count && Pushed(o, result, end, rng, at)
  {
    hide PoolAt;
    hide Pushed;
    hide Pool;
    SlotRange(o, 0, k);
    end := n;
    for i := 0 to count
      invariant end == n + i && Pushed(o, result, end, rng, at)
    {
      SlotAt(o, end, k);
      Push(o, at, result, end, pool, rng);
      end := end + 1;
    }
  }

  // The guaranteed minimum of each set.
  method PushMinimums(o: Options, ghost at: nat, result: array<char>, pools: Charset -> string, rng: Rng) returns (n: nat)
    requires Valid(o) && Pushed(o, result, 0, rng, at) && forall k :: pools(k) == Pool(o, k)
    modifies result, rng
    ensures n == Start(o, Lower) + Quota(o, Lower) && Pushed(o, result, n, rng, at)
  {
    hide Pushed;
    hide Pool;
    forall k ensures pools(k) != [] <==> k in o.sets {
      PoolsHaveCharacters(o, k);
    }
    n := 0;
    if Number in o.sets && pools(Number) != [] && o.minNumbers > 0 {
      n := PushFrom(o, at, result, n, Number, pools(Number), Min(o.minNumbers, o.length), rng);
    }
    if Special in o.sets && pools(Special) != [] && o.minSpecial > 0 {
      n := PushFrom(o, at, result, n, Special, pools(Special), Min(o.minSpecial, o.length - n), rng);
    }
    if Upper in o.sets && pools(Upper) != [] && n < o.length {
      n := PushFrom(o, at, result, n, Upper, pools(Upper), 1, rng);
    }
    if Lower in o.sets && pools(Lower) != [] && n < o.length {
      n := PushFrom(o, at, result, n, Lower, pools(Lower), 1, rng);
    }
  }

  lemma AnySlot(o: Options, n: nat)
    requires n >= Start(o, Lower) + Quota(o, Lower)
    ensures PoolAt(o, n) == CombinedPool(o)
  {
    hide Pool;
    hide CombinedPool;
  }

  lemma NonePushed(o: Options, result: array<char>, rng: Rng)
    requires Valid(o) && result.Length == o.length
    ensures Pushed(o, result, 0, rng, rng.used)
  {
  }

  lemma AllPushed(o: Options, result: array<char>, rng: Rng, at: nat)
    requires Valid(o) && Pushed(o, result, o.length, rng, at)
    ensures result[..] == Drawn(o, rng.draws, at) && rng.used == at + o.length
  {
    hide Drawn;
    assert result[..] == result[..o.length];
  }

  // What the caller gets is the password the random numbers give, or the reason for none. The
  // third refusal never happens.
  method GeneratePassword(o: Options, rng: Rng) returns (r: Result<string, Refusal>)
    modifies rng
    ensures r == if !(5 <= o.length <= 128) then Err(BadLength)
                 else if o.sets == {} then Err(NoSets)
                 else Ok(Password(o, rng.draws, old(rng.used)))
    ensures r.Ok? ==> MeetsOptions(o, r.value)
  {
    hide MeetsOptions;
    hide Pool;
    hide PoolAt;
    hide CombinedPool;
    hide Drawn;
    hide Shuffled;
    hide Pushed;
    if o.length < MIN_LENGTH || o.length > MAX_LENGTH {
      return Err(BadLength);
    }
    if o.sets == {} {
      return Err(NoSets);
    }
    CombinedNeverEmpty(o);
    var combinedPool := CombinedPool(o);
    if combinedPool == [] {
      return Err(NoCharacters);
    }
    ghost var at := rng.used;
    var result := new char[o.length];
    NonePushed(o, result, rng);
    var n := PushMinimums(o, at, result, k => Pool(o, k), rng);
    SlotRange(o, 0, Lower);
    while n < o.length
      invariant Start(o, Lower) + Quota(o, Lower) <= n <= o.length && Pushed(o, result, n, rng, at)
    {
      AnySlot(o, n);
      Push(o, at, result, n, combinedPool, rng);
      n := n + 1;
    }
    AllPushed(o, result, rng, at);
    Shuffle(result, rng);
    PasswordAcceptable(o, rng.draws, at);
    return Ok(result[..]);
  }
}
