/** Card numbers: cleaned to digits, cut into the segments of their brand, shown or masked. */
module CardFormatter {
  import opened Results

  const BULLET: char := '\U{2022}'

  // The brand's name as the heuristics read it.
  datatype Brand = Brand(amex: bool, diners: bool)

  predicate IsDigit(c: char) {
    '0' <= c <= '9'
  }

  function Digits(s: string): (r: string)
    ensures forall i :: 0 <= i < |r| ==> IsDigit(r[i])
    ensures |r| <= |s|
  {
    if s == "" then "" else if IsDigit(s[0]) then [s[0]] + Digits(s[1..]) else Digits(s[1..])
  }

  function Clean(num: Option<string>): string {
    match num case None => "" case Some(s) => Digits(s)
  }

  predicate StartsWithAny(s: string, prefixes: seq<string>) {
    exists i :: 0 <= i < |prefixes| && prefixes[i] <= s
  }

  predicate IsAmex(clean: string, brand: Brand) {
    |clean| == 15 && (StartsWithAny(clean, ["34", "37"]) || brand.amex)
  }

  predicate IsDiners(clean: string, brand: Brand) {
    |clean| == 14
    && (StartsWithAny(clean, ["36", "38", "300", "301", "302", "303", "304", "305"]) || brand.diners)
  }

  function Fours(n: nat): (segs: seq<nat>)
    ensures forall i :: 0 <= i < |segs| ==> segs[i] > 0
  {
    if n == 0 then [] else if n <= 4 then [n] else [4] + Fours(n - 4)
  }

  function Segments(clean: string, brand: Brand): seq<nat> {
    if |clean| <= 4 then [|clean|]
    else if IsAmex(clean, brand) then [4, 6, 5]
    else if IsDiners(clean, brand) then [4, 6, 4]
    else Fours(|clean|)
  }

  function Sum(ns: seq<nat>): nat {
    if ns == [] then 0 else ns[0] + Sum(ns[1..])
  }

  // The parts the segments cut, as far as there is text; what they leave is one more part.
  function Cut(s: string, segs: seq<nat>): (parts: seq<string>)
    ensures parts == [] <==> s == ""
    decreases |segs|
  {
    if s == "" then []
    else if segs == [] || segs[0] >= |s| then [s]
    else [s[..segs[0]]] + Cut(s[segs[0]..], segs[1..])
  }

  function Join(parts: seq<string>): string {
    if parts == [] then ""
    else if |parts| == 1 then parts[0]
    else parts[0] + " " + Join(parts[1..])
  }

  function Bullets(n: nat): (s: string)
    ensures |s| == n && forall i :: 0 <= i < n ==> s[i] == BULLET
  {
    seq(n, i => BULLET)
  }

  // Everything but the last four digits.
  function Masked(clean: string): (s: string)
    requires |clean| > 4
    ensures |s| == |clean|
  {
    Bullets(|clean| - 4) + clean[|clean| - 4..]
  }

  lemma {:induction false} FoursSum(n: nat)
    ensures Sum(Fours(n)) == n
  {
    if n > 4 {
      FoursSum(n - 4);
      assert ([4] + Fours(n - 4))[1..] == Fours(n - 4);
    } else if n > 0 {
      assert [n][1..] == [];
    }
  }

  lemma Sum3(a: nat, b: nat, c: nat)
    ensures Sum([a, b, c]) == a + b + c
  {
    assert [c][1..] == [] && Sum([c]) == c;
    assert [b, c][1..] == [c] && Sum([b, c]) == b + c;
    assert [a, b, c][1..] == [b, c];
  }

  // The segments take up the digits exactly, so nothing is ever left over.
  lemma SegmentsSum(clean: string, brand: Brand)
    ensures Sum(Segments(clean, brand)) == |clean|
    ensures clean != "" ==> forall i :: 0 <= i < |Segments(clean, brand)| ==> Segments(clean, brand)[i] > 0
  {
    Sum3(4, 6, 5);
    Sum3(4, 6, 4);
    FoursSum(|clean|);
    assert [|clean|][1..] == [];
  }

  // Segments that take up the text exactly cut it into parts of their own lengths.
  lemma {:induction false} CutExactly(s: string, segs: seq<nat>)
    requires Sum(segs) == |s| && forall i :: 0 <= i < |segs| ==> segs[i] > 0
    ensures |Cut(s, segs)| == |segs| && forall i :: 0 <= i < |segs| ==> |Cut(s, segs)[i]| == segs[i]
    decreases |segs|
  {
    if segs != [] {
      if segs[0] == |s| {
        SumZero(segs[1..]);
      } else {
        CutExactly(s[segs[0]..], segs[1..]);
      }
    }
  }

  lemma SumZero(segs: seq<nat>)
    requires Sum(segs) == 0 && forall i :: 0 <= i < |segs| ==> segs[i] > 0
    ensures segs == []
  {
  }

  function Grouped(clean: string, s: string, brand: Brand): string {
    Join(Cut(s, Segments(clean, brand)))
  }

  // A number of more than four digits is shown in the segments of its brand, with no part left.
  lemma PartsAreSegments(clean: string, s: string, brand: Brand)
    requires |s| == |clean| > 4
    ensures var parts, segs := Cut(s, Segments(clean, brand)), Segments(clean, brand);
            |parts| == |segs| && forall i :: 0 <= i < |segs| ==> |parts[i]| == segs[i]
  {
    SegmentsSum(clean, brand);
    CutExactly(s, Segments(clean, brand));
  }

  function Revealed(num: Option<string>, brand: Brand): string {
    var clean := Clean(num);
    if clean == "" then if num.Some? then num.value else ""
    else if |clean| <= 4 then clean
    else Grouped(clean, clean, brand)
  }

  function MaskedNumber(num: Option<string>, brand: Brand): string {
    var clean := Clean(num);
    if clean == "" then Bullets(4) + " " + Bullets(4) + " " + Bullets(4) + " " + Bullets(4)
    else if |clean| <= 4 then Bullets(|clean|)
    else Grouped(clean, Masked(clean), brand)
  }

  // ----- the forms by length and brand -----

  // A non-digit is dropped and a digit kept, wherever it stands.
  lemma {:induction false} DigitsStep(s: string, c: char)
    ensures Digits(s + [c]) == Digits(s) + if '0' <= c <= '9' then [c] else []
  {
    if s == "" {
      assert s + [c] == [c] && [c][1..] == "";
    } else {
      assert (s + [c])[1..] == s[1..] + [c];
      DigitsStep(s[1..], c);
    }
  }

  predicate Begins(s: string, a: char, b: char) {
    |s| >= 2 && s[0] == a && s[1] == b
  }

  lemma AmexPrefixes(clean: string)
    ensures StartsWithAny(clean, ["34", "37"]) <==> Begins(clean, '3', '4') || Begins(clean, '3', '7')
  {
    var ps := ["34", "37"];
    if Begins(clean, '3', '4') {
      assert ps[0] <= clean;
    }
    if Begins(clean, '3', '7') {
      assert ps[1] <= clean;
    }
  }

  lemma DinersPrefixes(clean: string)
    ensures StartsWithAny(clean, ["36", "38", "300", "301", "302", "303", "304", "305"])
       <==> Begins(clean, '3', '6') || Begins(clean, '3', '8') || (Begins(clean, '3', '0') && |clean| >= 3 && '0' <= clean[2] <= '5')
  {
    var ps := ["36", "38", "300", "301", "302", "303", "304", "305"];
    if Begins(clean, '3', '6') {
      assert ps[0] <= clean;
    }
    if Begins(clean, '3', '8') {
      assert ps[1] <= clean;
    }
    if Begins(clean, '3', '0') && |clean| >= 3 && '0' <= clean[2] <= '5' {
      var i := 2 + (clean[2] as int - '0' as int);
      assert ps[i] <= clean;
    }
  }

  lemma {:induction false} FoursAre(n: nat)
    ensures |Fours(n)| == (n + 3) / 4
    ensures forall i :: 0 <= i < |Fours(n)| ==> Fours(n)[i] == if 4 * (i + 1) <= n then 4 else n - 4 * i
  {
    if n > 4 {
      FoursAre(n - 4);
    }
  }

  // Fifteen digits of American Express are 4-6-5, fourteen of Diners Club 4-6-4, anything else
  // fours with the rest at the end; four digits or fewer are one segment.
  lemma SegmentsAre(clean: string, brand: Brand)
    ensures var segs := Segments(clean, brand);
            if |clean| <= 4 then segs == [|clean|]
            else if |clean| == 15 && (Begins(clean, '3', '4') || Begins(clean, '3', '7') || brand.amex) then segs == [4, 6, 5]
            else if |clean| == 14 && (Begins(clean, '3', '6') || Begins(clean, '3', '8')
                                      || (Begins(clean, '3', '0') && '0' <= clean[2] <= '5') || brand.diners) then segs == [4, 6, 4]
            else |segs| == (|clean| + 3) / 4
                 && forall i :: 0 <= i < |segs| ==> segs[i] == if 4 * (i + 1) <= |clean| then 4 else |clean| - 4 * i
  {
    hide StartsWithAny;
    hide Fours;
    AmexPrefixes(clean);
    DinersPrefixes(clean);
    FoursAre(|clean|);
  }

  // Up to four digits are shown as they are and masked altogether; without digits the input comes
  // back, and the mask is that of a card of sixteen.
  lemma ShortForms(num: Option<string>, brand: Brand)
    requires |Clean(num)| <= 4
    ensures Revealed(num, brand) == if Clean(num) != "" then Clean(num) else if num.Some? then num.value else ""
    ensures var masked, n := MaskedNumber(num, brand), |Clean(num)|;
            if n > 0 then |masked| == n && forall i :: 0 <= i < n ==> masked[i] == '\U{2022}'
            else |masked| == 19 && forall i :: 0 <= i < 19 ==> masked[i] == if i in {4, 9, 14} then ' ' else '\U{2022}'
  {
  }

  // ----- what formatting keeps -----

  predicate AllDigits(s: string) {
    forall i :: 0 <= i < |s| ==> IsDigit(s[i])
  }

  lemma {:induction false} DigitsOf(s: string)
    requires AllDigits(s)
    ensures Digits(s) == s
  {
    if s != "" {
      DigitsOf(s[1..]);
    }
  }

  lemma {:induction false} DigitsConcat(s: string, t: string)
    ensures Digits(s + t) == Digits(s) + Digits(t)
  {
    if s == "" {
      assert s + t == t;
    } else {
      assert (s + t)[1..] == s[1..] + t;
      DigitsConcat(s[1..], t);
    }
  }

  // One segment and the rest.
  lemma JoinCut(s: string, segs: seq<nat>)
    requires segs != [] && segs[0] < |s|
    ensures Join(Cut(s, segs)) == s[..segs[0]] + " " + Join(Cut(s[segs[0]..], segs[1..]))
  {
    var rest := Cut(s[segs[0]..], segs[1..]);
    assert ([s[..segs[0]]] + rest)[1..] == rest;
  }

  lemma JoinWhole(s: string, segs: seq<nat>)
    requires segs == [] || segs[0] >= |s|
    ensures Join(Cut(s, segs)) == s
  {
  }

  lemma {:induction false} JoinKeepsDigits(s: string, segs: seq<nat>)
    requires AllDigits(s)
    ensures Digits(Join(Cut(s, segs))) == s
    decreases |segs|
  {
    hide Join;
    hide Cut;
    if segs == [] || segs[0] >= |s| {
      JoinWhole(s, segs);
      DigitsOf(s);
    } else {
      var k := segs[0];
      var rest := Join(Cut(s[k..], segs[1..]));
      JoinCut(s, segs);
      JoinKeepsDigits(s[k..], segs[1..]);
      DigitsOf(s[..k]);
      DigitsConcat(s[..k] + " ", rest);
      DigitsConcat(s[..k], " ");
      assert s[..k] + s[k..] == s;
    }
  }

  // Cleaning a formatted number gives back the digits of the number.
  lemma RevealedKeepsDigits(num: Option<string>, brand: Brand)
    ensures Digits(Revealed(num, brand)) == Clean(num)
  {
    var clean := Clean(num);
    DigitsOf(clean);
    if |clean| > 4 {
      JoinKeepsDigits(clean, Segments(clean, brand));
    }
  }

  lemma RevealedTwice(num: Option<string>, brand: Brand)
    ensures Revealed(Some(Revealed(num, brand)), brand) == Revealed(num, brand)
  {
    RevealedKeepsDigits(num, brand);
  }

  // Where a place of the formatted number comes from: a separator, or the digit that has as many
  // digits from it on.
  predicate Placed(shown: string, digits: string, other: string, s: string, i: nat)
    requires i < |shown| == |other| && |s| == |digits|
  {
    var left := |Digits(shown[i..])|;
    if shown[i] == ' ' then other[i] == ' '
    else 0 < left <= |s| && shown[i] == digits[|s| - left] && other[i] == s[|s| - left]
  }

  lemma PlacedWhole(digits: string, s: string, i: nat)
    requires i < |digits| == |s| && AllDigits(digits)
    ensures Placed(digits, digits, s, s, i)
  {
    DigitsOf(digits[i..]);
  }

  // The places of the first segment, with what follows it.
  lemma PlacedFirst(digits: string, s: string, k: nat, shown: string, other: string, i: nat)
    requires i < k <= |digits| == |s| && AllDigits(digits) && |shown| == |other|
    requires Digits(shown) == digits[k..]
    ensures Placed(digits[..k] + " " + shown, digits, s[..k] + " " + other, s, i)
  {
    var whole := digits[..k] + " " + shown;
    assert whole[i..] == digits[i..k] + " " + shown;
    DigitsOf(digits[i..k]);
    DigitsConcat(digits[i..k] + " ", shown);
    DigitsConcat(digits[i..k], " ");
  }

  // The separator.
  lemma PlacedBetween(digits: string, s: string, k: nat, shown: string, other: string)
    requires k <= |digits| == |s| && |shown| == |other|
    ensures Placed(digits[..k] + " " + shown, digits, s[..k] + " " + other, s, k)
  {
  }

  // The places after it.
  lemma PlacedRest(digits: string, s: string, k: nat, shown: string, other: string, i: nat)
    requires k <= |digits| == |s| && |shown| == |other|
    requires i < |shown| && Placed(shown, digits[k..], other, s[k..], i)
    ensures Placed(digits[..k] + " " + shown, digits, s[..k] + " " + other, s, k + 1 + i)
  {
    hide Digits;
    var whole := digits[..k] + " " + shown;
    assert whole[k + 1 + i..] == shown[i..];
  }

  // Two texts cut into the same segments have their separators and their characters at the same
  // places.
  lemma {:induction false} JoinPlaces(digits: string, s: string, segs: seq<nat>)
    requires |digits| == |s| && AllDigits(digits)
    ensures var shown, other := Join(Cut(digits, segs)), Join(Cut(s, segs));
            |shown| == |other| && forall i :: 0 <= i < |shown| ==> Placed(shown, digits, other, s, i)
    decreases |segs|
  {
    hide Join;
    hide Cut;
    hide Placed;
    hide Digits;
    if segs == [] || segs[0] >= |s| {
      JoinWhole(digits, segs);
      JoinWhole(s, segs);
      forall i | 0 <= i < |digits| ensures Placed(digits, digits, s, s, i) {
        PlacedWhole(digits, s, i);
      }
    } else {
      var k := segs[0];
      JoinCut(digits, segs);
      JoinCut(s, segs);
      JoinPlaces(digits[k..], s[k..], segs[1..]);
      JoinKeepsDigits(digits[k..], segs[1..]);
      var shown, other := Join(Cut(digits[k..], segs[1..])), Join(Cut(s[k..], segs[1..]));
      forall i | 0 <= i < k + 1 + |shown|
        ensures Placed(digits[..k] + " " + shown, digits, s[..k] + " " + other, s, i)
      {
        if i < k {
          PlacedFirst(digits, s, k, shown, other, i);
        } else if i == k {
          PlacedBetween(digits, s, k, shown, other);
        } else {
          PlacedRest(digits, s, k, shown, other, i - k - 1);
        }
      }
    }
  }

  // Above four digits the masked number is the revealed one with a bullet for every digit that
  // has four or more after it: the separators are the same, and so are the last four digits.
  lemma MaskedAgainstRevealed(num: Option<string>, brand: Brand)
    requires |Clean(num)| > 4
    ensures var shown, masked := Revealed(num, brand), MaskedNumber(num, brand);
            |masked| == |shown| && forall i :: 0 <= i < |shown| ==>
              masked[i] == if shown[i] == ' ' || |Digits(shown[i..])| <= 4 then shown[i] else BULLET
  {
    var clean := Clean(num);
    JoinPlaces(clean, Masked(clean), Segments(clean, brand));
    var shown, masked := Revealed(num, brand), MaskedNumber(num, brand);
    forall i | 0 <= i < |shown|
      ensures masked[i] == if shown[i] == ' ' || |Digits(shown[i..])| <= 4 then shown[i] else BULLET
    {
      assert Placed(shown, clean, masked, Masked(clean), i);
    }
  }

  // ----- the same as the code runs it -----

  lemma FoursStep(n: nat)
    requires n > 0
    ensures Fours(n) == (if 4 <= n then [4] + Fours(n - 4) else [n] + Fours(0)) && Fours(0) == []
  {
  }

  method GetCardSegments(clean: string, brand: Brand) returns (segments: seq<nat>)
    ensures segments == Segments(clean, brand)
  {
    hide Fours;
    hide StartsWithAny;
    if |clean| <= 4 {
      return [|clean|];
    }
    if IsAmex(clean, brand) {
      return [4, 6, 5];
    }
    if IsDiners(clean, brand) {
      return [4, 6, 4];
    }
    segments := [];
    var remaining: nat := |clean|;
    FoursStep(remaining);
    assert segments + Fours(remaining) == Fours(|clean|);
    while remaining > 0
      invariant segments + Fours(remaining) == Fours(|clean|)
    {
      var chunk := if 4 <= remaining then 4 else remaining;
      FoursStep(remaining);
      assert segments + ([chunk] + Fours(remaining - chunk)) == segments + [chunk] + Fours(remaining - chunk);
      segments := segments + [chunk];
      remaining := remaining - chunk;
    }
    assert segments + [] == segments;
  }

  // A slice stops at the end of the text.
  function Slice(s: string, from: nat, to: nat): string {
    if from > |s| || from > to then "" else if to <= |s| then s[from..to] else s[from..]
  }

  lemma SliceOfRest(s: string, from: nat, n: nat)
    requires from < |s|
    ensures Slice(s[from..], 0, n) == Slice(s, from, from + n)
    ensures Slice(s[from..], n, |s[from..]|) == Slice(s, from + n, |s|)
  {
  }

  lemma CutOnce(s: string, segs: seq<nat>)
    requires s != "" && segs != []
    ensures Cut(s, segs) == [Slice(s, 0, segs[0])] + Cut(Slice(s, segs[0], |s|), segs[1..])
  {
    var k := segs[0];
    if k >= |s| {
      assert Slice(s, k, |s|) == "" && Slice(s, 0, k) == s;
    } else {
      assert Slice(s, k, |s|) == s[k..] && Slice(s, 0, k) == s[..k];
    }
  }

  lemma CutStep(s: string, from: nat, segs: seq<nat>)
    requires from < |s| && segs != []
    ensures Cut(s[from..], segs) == [Slice(s, from, from + segs[0])] + Cut(Slice(s, from + segs[0], |s|), segs[1..])
  {
    hide Cut;
    hide Slice;
    CutOnce(s[from..], segs);
    SliceOfRest(s, from, segs[0]);
  }

  lemma CutLast(s: string)
    requires s != ""
    ensures Cut(s, []) == [s]
  {
  }

  // Cuts by walking along the segments.
  method Partition(s: string, segs: seq<nat>) returns (parts: seq<string>)
    ensures parts == Cut(s, segs)
  {
    hide Cut;
    parts := [];
    var idx: nat := 0;
    assert segs[0..] == segs && Slice(s, 0, |s|) == s && parts + Cut(s, segs) == Cut(s, segs);
    for i := 0 to |segs|
      invariant parts + Cut(Slice(s, idx, |s|), segs[i..]) == Cut(s, segs)
    {
      var segLen := segs[i];
      if idx >= |s| {
        break;
      }
      CutStep(s, idx, segs[i..]);
      assert segs[i..][1..] == segs[i + 1..] && Slice(s, idx, |s|) == s[idx..];
      ghost var rest := Cut(Slice(s, idx + segLen, |s|), segs[i + 1..]);
      assert parts + ([Slice(s, idx, idx + segLen)] + rest) == parts + [Slice(s, idx, idx + segLen)] + rest;
      parts := parts + [Slice(s, idx, idx + segLen)];
      idx := idx + segLen;
    }
    ghost var left := Slice(s, idx, |s|);
    if idx < |s| {
      assert segs[|segs|..] == [];
      CutLast(left);
      parts := parts + [s[idx..]];
    } else {
      assert left == "" && parts + [] == parts;
    }
  }

  method FormatRevealed(num: Option<string>, brand: Brand) returns (r: string)
    ensures r == Revealed(num, brand)
  {
    var clean := Clean(num);
    if clean == "" {
      return if num.Some? then num.value else "";
    }
    if |clean| <= 4 {
      return clean;
    }
    var segs := GetCardSegments(clean, brand);
    var parts := Partition(clean, segs);
    return Join(parts);
  }

  method FormatMasked(num: Option<string>, brand: Brand) returns (r: string)
    ensures r == MaskedNumber(num, brand)
  {
    var clean := Clean(num);
    if clean == "" {
      return Bullets(4) + " " + Bullets(4) + " " + Bullets(4) + " " + Bullets(4);
    }
    if |clean| <= 4 {
      var dots := "";
      for d := 0 to |clean|
        invariant dots == Bullets(d)
      {
        dots := dots + [BULLET];
      }
      return dots;
    }
    var segs := GetCardSegments(clean, brand);
    var maskedRaw := "";
    for m := 0 to |clean| - 4
      invariant maskedRaw == Bullets(m)
    {
      maskedRaw := maskedRaw + [BULLET];
    }
    maskedRaw := maskedRaw + clean[|clean| - 4..];
    var parts := Partition(maskedRaw, segs);
    return Join(parts);
  }
}
