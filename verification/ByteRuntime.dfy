/** Searching, splitting, joining and replacing bytes in two passes: src/stdlib/bytes.c. */
module ByteRuntime {
  import opened Ast

  /** A byte is a character below 256. */
  type Bytes = string

  const SIZE_MAX: int := 0xffff_ffff_ffff_ffff

  predicate OccursAt(s: Bytes, d: Bytes, i: nat) { i + |d| <= |s| && s[i..i + |d|] == d }

  predicate Contains(s: Bytes, d: Bytes) { exists i :: 0 <= i < |s| && OccursAt(s, d, i) }

  // ---- What is computed ----

  /** The parts from `start` on, looking for delimiters from `i` on. */
  function SplitFrom(s: Bytes, d: Bytes, start: nat, i: nat): (r: seq<Bytes>)
    requires d != [] && start <= i <= |s|
    ensures r != []
    decreases |s| - i
  {
    if i + |d| > |s| then [s[start..]]
    else if OccursAt(s, d, i) then [s[start..i]] + SplitFrom(s, d, i + |d|, i + |d|)
    else SplitFrom(s, d, start, i + 1)
  }

  function Split(s: Bytes, d: Bytes): seq<Bytes>
    requires d != []
  {
    SplitFrom(s, d, 0, 0)
  }

  function Join(parts: seq<Bytes>, d: Bytes): Bytes
  {
    if parts == [] then [] else if |parts| == 1 then parts[0] else parts[0] + d + Join(parts[1..], d)
  }

  /** Each match, found from the left and without overlap, is exchanged. */
  function ReplaceFrom(s: Bytes, d: Bytes, r: Bytes, i: nat): Bytes
    requires d != [] && i <= |s|
    decreases |s| - i
  {
    if i == |s| then []
    else if OccursAt(s, d, i) then r + ReplaceFrom(s, d, r, i + |d|)
    else [s[i]] + ReplaceFrom(s, d, r, i + 1)
  }

  function MatchesFrom(s: Bytes, d: Bytes, i: nat): nat
    requires d != [] && i <= |s|
    decreases |s| - i
  {
    if i + |d| > |s| then 0
    else if OccursAt(s, d, i) then 1 + MatchesFrom(s, d, i + |d|)
    else MatchesFrom(s, d, i + 1)
  }

  // ---- Searching ----

  const I64_MAX: int := 0x7fff_ffff_ffff_ffff

  /** A length as a signed 64-bit number; the cast wraps around. */
  function AsI64(n: nat): int
    requires n <= SIZE_MAX
  {
    if n <= I64_MAX then n else n - SIZE_MAX - 1
  }

  predicate IsFirst(s: Bytes, d: Bytes, i: nat) { OccursAt(s, d, i) && forall j :: 0 <= j < i ==> !OccursAt(s, d, j) }

  predicate IsLast(s: Bytes, d: Bytes, i: nat) { OccursAt(s, d, i) && forall j :: i < j <= |s| ==> !OccursAt(s, d, j) }

  /** The place as it is cast; -1 stands for no place only. */
  method IndexOf(s: Bytes, d: Bytes) returns (r: int)
    requires |s| <= SIZE_MAX
    ensures r == -1 <==> forall i :: 0 <= i <= |s| ==> !OccursAt(s, d, i)
    ensures r != -1 ==> exists i :: 0 <= i <= |s| && IsFirst(s, d, i) && r == AsI64(i)
  {
    if |d| == 0 {
      assert IsFirst(s, d, 0);
      return 0;
    }
    if |d| > |s| {
      return -1;
    }
    for i := 0 to |s| - |d| + 1
      invariant forall j :: 0 <= j < i ==> !OccursAt(s, d, j)
    {
      if s[i..i + |d|] == d {
        assert IsFirst(s, d, i);
        return AsI64(i);
      }
    }
    return -1;
  }

  /** The empty needle stands at the end, which is refused when it is no signed 64-bit number. */
  method LastIndexOf(s: Bytes, d: Bytes) returns (r: Option<int>)
    requires |s| <= SIZE_MAX
    ensures r.None? <==> d == [] && |s| > I64_MAX
    ensures r.Some? ==> (r.value == -1 <==> forall i :: 0 <= i <= |s| ==> !OccursAt(s, d, i))
    ensures r.Some? && r.value != -1 ==> exists i :: 0 <= i <= |s| && IsLast(s, d, i) && r.value == AsI64(i)
  {
    if |d| == 0 {
      assert IsLast(s, d, |s|);
      return if |s| > I64_MAX then None else Some(|s|);
    }
    if |d| > |s| {
      return Some(-1);
    }
    var start := |s| - |d|;
    while true
      invariant 0 <= start <= |s| - |d|
      invariant forall i :: start < i <= |s| ==> !OccursAt(s, d, i)
      decreases start
    {
      if s[start..start + |d|] == d {
        assert IsLast(s, d, start);
        return Some(AsI64(start));
      }
      if start == 0 {
        break;
      }
      start := start - 1;
    }
    return Some(-1);
  }

  // ---- Splitting ----

  lemma {:induction false} SplitCounts(s: Bytes, d: Bytes, start: nat, i: nat)
    requires d != [] && start <= i <= |s|
    ensures |SplitFrom(s, d, start, i)| == MatchesFrom(s, d, i) + 1
    decreases |s| - i
  {
    if i + |d| <= |s| {
      if OccursAt(s, d, i) { SplitCounts(s, d, i + |d|, i + |d|); } else { SplitCounts(s, d, start, i + 1); }
    }
  }

  /** The first pass. */
  method CountMatches(s: Bytes, d: Bytes) returns (count: nat)
    requires d != []
    ensures count == MatchesFrom(s, d, 0)
  {
    count := 0;
    if |d| <= |s| {
      var maxStart := |s| - |d|;
      var i := 0;
      while i <= maxStart
        invariant 0 <= i <= |s| && count + MatchesFrom(s, d, i) == MatchesFrom(s, d, 0)
        decreases |s| - i
      {
        if s[i..i + |d|] == d {
          count := count + 1;
          i := i + |d|;
        } else {
          i := i + 1;
        }
      }
    }
  }

  lemma SplitStep(s: Bytes, d: Bytes, start: nat, i: nat)
    requires d != [] && start <= i <= |s|
    ensures
      SplitFrom(s, d, start, i) ==
      if i + |d| > |s| then [s[start..]]
      else if s[i..i + |d|] == d then [s[start..i]] + SplitFrom(s, d, i + |d|, i + |d|)
      else SplitFrom(s, d, start, i + 1)
  {}

  /** The slots counted in the first pass are the slots filled in the second; an empty delimiter is refused. */
  method SplitOn(s: Bytes, d: Bytes) returns (parts: Option<array<Bytes>>)
    ensures parts.None? <==> d == []
    ensures parts.Some? ==> fresh(parts.value) && parts.value[..] == Split(s, d)
  {
    if |d| == 0 {
      return None;
    }
    hide SplitFrom, MatchesFrom;
    var matches := CountMatches(s, d);
    SplitCounts(s, d, 0, 0);
    var items := FillParts(s, d, 1 + matches);
    return Some(items);
  }

  lemma Regroup<T>(done: seq<T>, next: seq<T>, rest: seq<T>)
    ensures done + (next + rest) == done + next + rest
  {}

  /** The second pass. */
  method FillParts(s: Bytes, d: Bytes, count: nat) returns (items: array<Bytes>)
    requires d != [] && count == |Split(s, d)|
    ensures fresh(items) && items[..] == Split(s, d)
  {
    hide SplitFrom;
    items := new Bytes[count];
    var start: nat, index: nat := 0, 0;
    if |d| <= |s| {
      var maxStart := |s| - |d|;
      var i: nat := 0;
      while i <= maxStart
        invariant start <= i <= |s| && index + |SplitFrom(s, d, start, i)| == items.Length
        invariant items[..index] + SplitFrom(s, d, start, i) == Split(s, d)
        decreases |s| - i
      {
        SplitStep(s, d, start, i);
        if s[i..i + |d|] == d {
          Regroup(items[..index], [s[start..i]], SplitFrom(s, d, i + |d|, i + |d|));
          FillSlot(items, index, s[start..i]);
          index := index + 1;
          i := i + |d|;
          start := i;
        } else {
          i := i + 1;
        }
      }
      SplitStep(s, d, start, i);
    } else {
      SplitStep(s, d, 0, 0);
    }
    FillSlot(items, index, s[start..]);
  }

  method FillSlot(items: array<Bytes>, index: nat, part: Bytes)
    requires index < items.Length
    modifies items
    ensures items[..index + 1] == old(items[..index]) + [part]
  {
    items[index] := part;
  }

  // ---- Joining ----

  /** fa_checked_size_add: nothing on overflow. */
  method CheckedAdd(a: nat, b: nat) returns (sum: Option<nat>)
    ensures sum == if a + b <= SIZE_MAX then Some(a + b) else None
  {
    return if b > SIZE_MAX || a > SIZE_MAX - b then None else Some(a + b);
  }

  /** fa_checked_size_mul. */
  method CheckedMul(a: nat, b: nat) returns (product: Option<nat>)
    ensures product == if Product(a, b) <= SIZE_MAX then Some(Product(a, b)) else None
  {
    return if a * b <= SIZE_MAX then Some(a * b) else None;
  }

  /** Copies a text into the buffer. */
  method CopyInto(bytes: array<char>, offset: nat, text: Bytes)
    requires offset + |text| <= bytes.Length
    modifies bytes
    ensures bytes[..] == old(bytes[..offset]) + text + old(bytes[offset + |text|..])
  {
    for k := 0 to |text|
      invariant bytes[..] == old(bytes[..offset]) + text[..k] + old(bytes[offset + k..])
    {
      bytes[offset + k] := text[k];
    }
  }

  function Product(a: nat, b: nat): nat { a * b }

  function TotalLength(parts: seq<Bytes>): nat
  {
    if parts == [] then 0 else |parts[0]| + TotalLength(parts[1..])
  }

  lemma {:induction false} JoinLength(parts: seq<Bytes>, d: Bytes)
    ensures |Join(parts, d)| == TotalLength(parts) + if |parts| < 2 then 0 else Product(|d|, |parts| - 1)
  {
    if |parts| > 1 { JoinLength(parts[1..], d); }
  }

  /** What is left to write after `i` parts. */
  function JoinRest(parts: seq<Bytes>, d: Bytes, i: nat): Bytes
    requires i <= |parts|
  {
    if i == |parts| then [] else if i == 0 then Join(parts, d) else d + Join(parts[i..], d)
  }

  lemma JoinStep(parts: seq<Bytes>, d: Bytes, i: nat)
    requires i < |parts|
    ensures JoinRest(parts, d, i) == (if i > 0 then d else []) + parts[i] + JoinRest(parts, d, i + 1)
  {
    assert parts[i..][1..] == parts[i + 1..];
  }

  lemma JoinEnds(parts: seq<Bytes>, d: Bytes)
    ensures JoinRest(parts, d, 0) == Join(parts, d) && JoinRest(parts, d, |parts|) == []
  {}

  /** The length of the joined text; nothing when the text and its final zero do not fit. */
  method JoinedLength(values: array<Bytes>, d: Bytes) returns (length: Option<nat>)
    ensures length == if |Join(values[..], d)| <= SIZE_MAX then Some(|Join(values[..], d)|) else None
  {
    hide Join, Product;
    ghost var parts := values[..];
    JoinLength(parts, d);
    var total: nat := 0;
    for i := 0 to values.Length
      invariant total <= SIZE_MAX && total + TotalLength(parts[i..]) == TotalLength(parts)
    {
      assert parts[i..][1..] == parts[i + 1..];
      var sum := CheckedAdd(total, |values[i]|);
      if sum.None? {
        return None;
      }
      total := sum.value;
    }
    if values.Length > 1 {
      var gaps := CheckedMul(|d|, values.Length - 1);
      if gaps.None? {
        return None;
      }
      length := CheckedAdd(total, gaps.value);
    } else {
      length := Some(total);
    }
  }

  /** Nothing exactly when the joined text and its final zero do not fit in memory. */
  method JoinBytes(values: array<Bytes>, d: Bytes) returns (text: Option<array<char>>)
    ensures text.None? <==> |Join(values[..], d)| >= SIZE_MAX
    ensures text.Some? ==> fresh(text.value) && text.value[..] == Join(values[..], d) + [0 as char]
  {
    hide Join;
    var length := JoinedLength(values, d);
    if length.None? {
      return None;
    }
    var size := CheckedAdd(length.value, 1);
    if size.None? {
      return None;
    }
    var bytes := WriteJoined(values, d, length.value);
    return Some(bytes);
  }

  method WriteJoined(values: array<Bytes>, d: Bytes, total: nat) returns (bytes: array<char>)
    requires total == |Join(values[..], d)|
    ensures fresh(bytes) && bytes[..] == Join(values[..], d) + [0 as char]
  {
    hide Join, JoinRest;
    ghost var parts := values[..];
    bytes := new char[total + 1];
    var offset: nat := 0;
    JoinEnds(parts, d);
    for i := 0 to values.Length
      invariant values[..] == parts
      invariant offset + |JoinRest(parts, d, i)| == total
      invariant bytes[..offset] + JoinRest(parts, d, i) == Join(parts, d)
    {
      JoinStep(parts, d, i);
      ghost var rest := JoinRest(parts, d, i + 1);
      if i > 0 {
        ghost var written := bytes[..offset];
        CopyInto(bytes, offset, d);
        assert bytes[..offset + |d|] == written + d;
        Regroup(written, d, parts[i] + rest);
        assert d + parts[i] + rest == d + (parts[i] + rest);
        offset := offset + |d|;
      } else {
        assert [] + parts[i] + rest == parts[i] + rest;
      }
      assert bytes[..offset] + (parts[i] + rest) == Join(parts, d);
      ghost var written := bytes[..offset];
      Regroup(written, parts[i], rest);
      CopyInto(bytes, offset, values[i]);
      offset := offset + |values[i]|;
      assert bytes[..offset] == written + parts[i];
    }
    bytes[total] := 0 as char;
    assert bytes[..] == bytes[..total] + [0 as char];
  }

  // ---- Replacing ----

  lemma {:induction false} ReplaceLength(s: Bytes, d: Bytes, r: Bytes, i: nat)
    requires d != [] && i <= |s|
    ensures |ReplaceFrom(s, d, r, i)| == |s| - i - MatchesFrom(s, d, i) * |d| + MatchesFrom(s, d, i) * |r|
    decreases |s| - i
  {
    if i < |s| {
      if OccursAt(s, d, i) {
        ReplaceLength(s, d, r, i + |d|);
        var m := MatchesFrom(s, d, i + |d|);
        OneMoreTime(m, |d|);
        OneMoreTime(m, |r|);
      } else {
        ReplaceLength(s, d, r, i + 1);
        if i + |d| > |s| { MatchesShort(s, d, i + 1); }
      }
    }
  }

  lemma OneMoreTime(m: nat, n: nat)
    ensures (1 + m) * n == n + m * n
  {}

  lemma MatchesShort(s: Bytes, d: Bytes, i: nat)
    requires d != [] && i <= |s| && i + |d| > |s|
    ensures MatchesFrom(s, d, i) == 0
  {}

  lemma ReplaceStep(s: Bytes, d: Bytes, r: Bytes, i: nat)
    requires d != [] && i <= |s|
    ensures i == |s| ==> ReplaceFrom(s, d, r, i) == []
    ensures OccursAt(s, d, i) ==> ReplaceFrom(s, d, r, i) == r + ReplaceFrom(s, d, r, i + |d|)
    ensures i < |s| && !OccursAt(s, d, i) ==> ReplaceFrom(s, d, r, i) == [s[i]] + ReplaceFrom(s, d, r, i + 1)
  {}

  /** The length of the replaced text; nothing when it does not fit. What is removed always does. */
  method ReplacedLength(s: Bytes, d: Bytes, r: Bytes) returns (length: Option<nat>)
    requires d != [] && |s| < SIZE_MAX
    ensures length == if |ReplaceFrom(s, d, r, 0)| <= SIZE_MAX then Some(|ReplaceFrom(s, d, r, 0)|) else None
  {
    hide ReplaceFrom, MatchesFrom;
    var matches := CountMatches(s, d);
    ReplaceLength(s, d, r, 0);
    ReplaceLength(s, d, [], 0);
    var removed := CheckedMul(matches, |d|);
    var added := CheckedMul(matches, |r|);
    if removed.None? || added.None? {
      return None;
    }
    length := CheckedAdd(|s| - removed.value, added.value);
  }

  /** Nothing exactly for an empty needle, and when the text and its final zero do not fit in memory. */
  method Replace(s: Bytes, d: Bytes, r: Bytes) returns (text: Option<array<char>>)
    requires |s| < SIZE_MAX
    ensures text.None? <==> d == [] || |ReplaceFrom(s, d, r, 0)| >= SIZE_MAX
    ensures text.Some? ==> fresh(text.value) && text.value[..] == ReplaceFrom(s, d, r, 0) + [0 as char]
  {
    if |d| == 0 {
      return None;
    }
    hide ReplaceFrom;
    var length := ReplacedLength(s, d, r);
    if length.None? {
      return None;
    }
    var size := CheckedAdd(length.value, 1);
    if size.None? {
      return None;
    }
    var bytes := WriteReplaced(s, d, r, length.value);
    return Some(bytes);
  }

  method WriteReplaced(s: Bytes, d: Bytes, r: Bytes, total: nat) returns (bytes: array<char>)
    requires d != [] && total == |ReplaceFrom(s, d, r, 0)|
    ensures fresh(bytes) && bytes[..] == ReplaceFrom(s, d, r, 0) + [0 as char]
  {
    hide ReplaceFrom;
    bytes := new char[total + 1];
    var in_: nat, out: nat := 0, 0;
    var maxStart := if |d| <= |s| then |s| - |d| else 0;
    while in_ < |s|
      invariant in_ <= |s| && out + |ReplaceFrom(s, d, r, in_)| == total
      invariant bytes[..out] + ReplaceFrom(s, d, r, in_) == ReplaceFrom(s, d, r, 0)
      decreases |s| - in_
    {
      ghost var written := bytes[..out];
      ReplaceStep(s, d, r, in_);
      if |d| <= |s| && in_ <= maxStart && s[in_..in_ + |d|] == d {
        assert OccursAt(s, d, in_);
        CopyInto(bytes, out, r);
        assert bytes[..out + |r|] == written + r;
        out := out + |r|;
        in_ := in_ + |d|;
      } else {
        bytes[out] := s[in_];
        assert bytes[..out + 1] == written + [s[in_]];
        out := out + 1;
        in_ := in_ + 1;
      }
    }
    ReplaceStep(s, d, r, in_);
    bytes[total] := 0 as char;
    assert bytes[..] == bytes[..total] + [0 as char];
  }

  // ---- What splitting means ----

  /** The delimiter behind the part is the first one. */
  predicate EndsAtFirst(part: Bytes, d: Bytes)
  {
    forall i :: 0 <= i < |part| ==> !OccursAt(part + d, d, i)
  }

  /** Cut at every delimiter that is found from the left, and nowhere else. */
  predicate IsSplitting(parts: seq<Bytes>, d: Bytes)
  {
    && parts != []
    && (forall k :: 0 <= k < |parts| - 1 ==> EndsAtFirst(parts[k], d))
    && !Contains(parts[|parts| - 1], d)
  }

  lemma OccursWithin(s: Bytes, d: Bytes, start: nat, part: Bytes, i: nat)
    requires start + |part| <= |s| && s[start..start + |part|] == part && i + |d| <= |part|
    ensures OccursAt(part, d, i) <==> OccursAt(s, d, start + i)
  {
    var inner, outer := part[i..i + |d|], s[start + i..start + i + |d|];
    forall k | 0 <= k < |d|
      ensures inner[k] == outer[k]
    {
      assert inner[k] == part[i + k] == s[start..start + |part|][i + k];
    }
    assert inner == outer;
  }

  lemma JoinCons(first: Bytes, rest: seq<Bytes>, d: Bytes)
    requires rest != []
    ensures Join([first] + rest, d) == first + d + Join(rest, d)
  {
    assert ([first] + rest)[1..] == rest;
  }

  lemma PartEndsAtFirst(s: Bytes, d: Bytes, start: nat, i: nat)
    requires d != [] && start <= i && OccursAt(s, d, i)
    requires forall j :: start <= j < i ==> !OccursAt(s, d, j)
    ensures EndsAtFirst(s[start..i], d)
  {
    var part := s[start..i];
    forall j | 0 <= j < |part|
      ensures !OccursAt(part + d, d, j)
    {
      assert part + d == s[start..i + |d|];
      if j + |d| <= |part + d| { OccursWithin(s, d, start, part + d, j); }
    }
  }

  lemma {:induction false} SplitFromMeans(s: Bytes, d: Bytes, start: nat, i: nat)
    requires d != [] && start <= i <= |s|
    requires forall j :: start <= j < i ==> !OccursAt(s, d, j)
    ensures IsSplitting(SplitFrom(s, d, start, i), d)
    ensures Join(SplitFrom(s, d, start, i), d) == s[start..]
    decreases |s| - i
  {
    hide SplitFrom, Join;
    SplitStep(s, d, start, i);
    if i + |d| > |s| {
      JoinOne(s[start..], d);
      forall j | 0 <= j < |s| - start
        ensures !OccursAt(s[start..], d, j)
      {
        if j + |d| <= |s| - start { OccursWithin(s, d, start, s[start..], j); }
      }
    } else if OccursAt(s, d, i) {
      var part := s[start..i];
      var rest := SplitFrom(s, d, i + |d|, i + |d|);
      SplitFromMeans(s, d, i + |d|, i + |d|);
      JoinCons(part, rest, d);
      assert s[start..] == part + d + s[i + |d|..];
      PartEndsAtFirst(s, d, start, i);
      hide OccursAt, EndsAtFirst, Contains;
      assert forall k :: 0 <= k < |rest| ==> ([part] + rest)[k + 1] == rest[k];
      assert forall k :: 0 < k <= |rest| ==> ([part] + rest)[k] == rest[k - 1];
    } else {
      SplitFromMeans(s, d, start, i + 1);
    }
  }

  lemma JoinOne(part: Bytes, d: Bytes)
    ensures Join([part], d) == part
  {}

  /** Joining the parts restores the input, and the parts are cut where they should be. */
  lemma SplitMeans(s: Bytes, d: Bytes)
    requires d != []
    ensures Join(Split(s, d), d) == s && IsSplitting(Split(s, d), d)
  {
    SplitFromMeans(s, d, 0, 0);
    assert s[0..] == s;
  }

  /** No part contains the delimiter. */
  lemma NoPartContains(s: Bytes, d: Bytes, k: nat)
    requires d != [] && k < |Split(s, d)|
    ensures !Contains(Split(s, d)[k], d)
  {
    hide SplitFrom;
    SplitMeans(s, d);
    var part := Split(s, d)[k];
    if k < |Split(s, d)| - 1 {
      assert EndsAtFirst(part, d);
      forall i | 0 <= i < |part|
        ensures !OccursAt(part, d, i)
      {
        if i + |d| <= |part| { OccursWithin(part + d, d, 0, part, i); }
      }
    }
  }

  /** A cut list of parts is found again, from any place inside its first part. */
  lemma {:induction false} SplitFinds(s: Bytes, d: Bytes, start: nat, i: nat, parts: seq<Bytes>)
    requires d != [] && IsSplitting(parts, d) && start <= i <= |s| && s[start..] == Join(parts, d)
    requires i <= start + |parts[0]|
    ensures SplitFrom(s, d, start, i) == parts
    decreases |s| - i
  {
    hide SplitFrom;
    SplitStep(s, d, start, i);
    var part := parts[0];
    if |parts| == 1 {
      assert parts == [part] && s[start..] == part;
      if i + |d| <= |s| {
        OccursWithin(s, d, start, part, i - start);
        SplitFinds(s, d, start, i + 1, parts);
      }
    } else {
      assert parts == [part] + parts[1..];
      JoinCons(part, parts[1..], d);
      hide Join;
      var end := start + |part|;
      assert s[start..end + |d|] == part + d && s[end..end + |d|] == d;
      assert s[end + |d|..] == Join(parts[1..], d);
      if i == end {
        TailSplits(parts, d);
        SplitFinds(s, d, end + |d|, end + |d|, parts[1..]);
        assert s[start..end] == part;
      } else {
        OccursWithin(s, d, start, part + d, i - start);
        SplitFinds(s, d, start, i + 1, parts);
      }
    }
  }

  lemma TailSplits(parts: seq<Bytes>, d: Bytes)
    requires IsSplitting(parts, d) && |parts| > 1
    ensures IsSplitting(parts[1..], d)
  {}

  /** Splitting undoes joining exactly for lists that are cut that way. */
  lemma SplitUndoesJoinIff(parts: seq<Bytes>, d: Bytes)
    requires d != []
    ensures Split(Join(parts, d), d) == parts <==> IsSplitting(parts, d)
  {
    SplitMeans(Join(parts, d), d);
    if IsSplitting(parts, d) {
      assert Join(parts, d)[0..] == Join(parts, d);
      SplitFinds(Join(parts, d), d, 0, 0, parts);
    }
  }

  // ---- What replacing means ----

  lemma {:induction false} ReplaceFromJoins(s: Bytes, d: Bytes, r: Bytes, start: nat, i: nat)
    requires d != [] && start <= i <= |s|
    ensures Join(SplitFrom(s, d, start, i), r) == s[start..i] + ReplaceFrom(s, d, r, i)
    decreases |s| - i
  {
    hide SplitFrom, Join, ReplaceFrom;
    SplitStep(s, d, start, i);
    ReplaceStep(s, d, r, i);
    if i + |d| > |s| {
      JoinOne(s[start..], r);
      TailCopied(s, d, r, i);
      assert s[start..] == s[start..i] + s[i..];
    } else if OccursAt(s, d, i) {
      var rest := SplitFrom(s, d, i + |d|, i + |d|);
      ReplaceFromJoins(s, d, r, i + |d|, i + |d|);
      JoinCons(s[start..i], rest, r);
      var after := ReplaceFrom(s, d, r, i + |d|);
      assert s[i + |d|..i + |d|] + after == after;
      assert s[start..i] + r + after == s[start..i] + (r + after);
    } else {
      ReplaceFromJoins(s, d, r, start, i + 1);
      var after := ReplaceFrom(s, d, r, i + 1);
      assert s[start..i + 1] + after == s[start..i] + ([s[i]] + after);
    }
  }

  lemma {:induction false} TailCopied(s: Bytes, d: Bytes, r: Bytes, i: nat)
    requires d != [] && i <= |s| < i + |d|
    ensures ReplaceFrom(s, d, r, i) == s[i..]
    decreases |s| - i
  {
    if i < |s| { TailCopied(s, d, r, i + 1); }
  }

  /** Replacing is joining the parts with the replacement. */
  lemma ReplaceIsJoinOfSplit(s: Bytes, d: Bytes, r: Bytes)
    requires d != []
    ensures ReplaceFrom(s, d, r, 0) == Join(Split(s, d), r)
  {
    ReplaceFromJoins(s, d, r, 0, 0);
  }

  /** Replacing the needle by itself changes nothing. */
  lemma ReplaceByItself(s: Bytes, d: Bytes)
    requires d != []
    ensures ReplaceFrom(s, d, d, 0) == s
  {
    ReplaceIsJoinOfSplit(s, d, d);
    SplitMeans(s, d);
  }
}
