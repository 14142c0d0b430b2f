/**
  The names of raw capture files. A parsed name is one of exactly one shape, and printing and
  parsing undo each other, even for group ids that contain the camera marker.
*/
module RawCaptureNaming {
  import opened Arithmetic
  import opened Wrappers
  import opened Decimal

  datatype Identity = Identity(groupId: string, cameraIndex: nat)

  const PREFIX := "raw__"
  const MARKER := "__cam"
  const EXTENSION := ".nv12"

  function FileName(id: Identity): string {
    PREFIX + id.groupId + MARKER + ToString(id.cameraIndex) + EXTENSION
  }

  // ---------- Searching ----------

  predicate MatchesAt(s: string, pattern: string, i: nat) {
    i + |pattern| <= |s| && s[i..i + |pattern|] == pattern
  }

  /** The last occurrence. */
  method LastIndexOf(s: string, pattern: string) returns (r: Option<nat>)
    ensures r.Some? ==> MatchesAt(s, pattern, r.value) && forall j: nat :: r.value < j ==> !MatchesAt(s, pattern, j)
    ensures r.None? ==> forall j: nat :: !MatchesAt(s, pattern, j)
  {
    if |s| < |pattern| {
      return None;
    }
    var i := |s| - |pattern| + 1;
    while i > 0
      invariant 0 <= i <= |s| - |pattern| + 1
      invariant forall j: nat :: i <= j ==> !MatchesAt(s, pattern, j)
    {
      i := i - 1;
      if MatchesAt(s, pattern, i) {
        return Some(i);
      }
    }
    return None;
  }

  // ---------- The shape of a name ----------

  /** `name` is made of this group and these index digits. */
  ghost predicate MadeOf(name: string, group: string, digits: string) {
    && digits != "" && AllDigits(digits)
    && name == PREFIX + group + MARKER + digits + EXTENSION
  }

  /** The shape of an acceptable name: its group is not empty. */
  ghost predicate Names(name: string, group: string, digits: string) {
    group != "" && MadeOf(name, group, digits)
  }

  function MarkerPos(group: string): nat {
    |PREFIX| + |group|
  }

  lemma MarkerIsThere(name: string, group: string, digits: string)
    requires MadeOf(name, group, digits)
    ensures MatchesAt(name, MARKER, MarkerPos(group))
    ensures name[MarkerPos(group)..] == MARKER + digits + EXTENSION
    ensures name[..MarkerPos(group)] == PREFIX + group
    ensures name[MarkerPos(group) + |MARKER|..|name| - |EXTENSION|] == digits
  {
    assert name == (PREFIX + group) + (MARKER + digits + EXTENSION);
  }

  lemma NoUnderscoreAfterMarker(tail: string, digits: string, q: nat)
    requires AllDigits(digits) && tail == MARKER + digits + EXTENSION
    requires 2 <= q < |tail|
    ensures tail[q] != '_'
  {
    if |MARKER| <= q < |MARKER| + |digits| {
      assert tail[q] == digits[q - |MARKER|];
    }
  }

  /** Even when the group id contains the marker, its last occurrence is the one before the index. */
  lemma MarkerIsLast(name: string, group: string, digits: string, p: nat)
    requires MadeOf(name, group, digits) && p > MarkerPos(group)
    ensures !MatchesAt(name, MARKER, p)
  {
    MarkerIsThere(name, group, digits);
    if p + |MARKER| <= |name| {
      var tail := name[MarkerPos(group)..];
      var q := p + 1 - MarkerPos(group);
      NoUnderscoreAfterMarker(tail, digits, q);
      assert name[p..p + |MARKER|][1] == tail[q] != MARKER[1];
    }
  }

  /** The marker that was found ends before the extension starts, so the index length is not negative. */
  lemma MarkerBeforeExtension(name: string, p: nat)
    requires MatchesAt(name, MARKER, p) && |name| >= |EXTENSION|
    requires name[|name| - |EXTENSION|..] == EXTENSION
    ensures p + |MARKER| + |EXTENSION| <= |name|
  {
    var dot := |name| - |EXTENSION|;
    assert name[dot..][0] == name[dot] == '.';
    forall i | p <= i < p + |MARKER|
      ensures name[i] != '.'
    {
      assert name[p..p + |MARKER|][i - p] == name[i];
    }
  }

  /** A name has one group and one index. */
  lemma NamesAreUnique(name: string, g: string, d: string, g': string, d': string)
    requires MadeOf(name, g, d) && MadeOf(name, g', d')
    ensures g == g' && d == d'
  {
    MarkerIsThere(name, g, d);
    MarkerIsThere(name, g', d');
    if MarkerPos(g) < MarkerPos(g') {
      MarkerIsLast(name, g, d, MarkerPos(g'));
    } else if MarkerPos(g') < MarkerPos(g) {
      MarkerIsLast(name, g', d', MarkerPos(g));
    }
    assert name[..MarkerPos(g)][|PREFIX|..] == g;
    assert name[..MarkerPos(g')][|PREFIX|..] == g';
  }

  // ---------- Parsing ----------

  /** The identity a name stands for; an index that does not fit 32 bits wraps around. */
  ghost predicate ParsesTo(name: string, r: Option<Identity>) {
    match r
    case Some(id) =>
      exists digits :: Names(name, id.groupId, digits) && id.cameraIndex == Value(digits) % U32_LIMIT
    case None => forall g, d :: !Names(name, g, d)
  }

  lemma FramedByMarker(name: string, p: nat)
    requires |name| >= |PREFIX| && name[..|PREFIX|] == PREFIX
    requires |name| >= |EXTENSION| && name[|name| - |EXTENSION|..] == EXTENSION
    requires MatchesAt(name, MARKER, p) && p >= |PREFIX| && p + |MARKER| + |EXTENSION| <= |name|
    ensures name == PREFIX + name[|PREFIX|..p] + MARKER + name[p + |MARKER|..|name| - |EXTENSION|] + EXTENSION
  {
    var e := |name| - |EXTENSION|;
    assert name == name[..|PREFIX|] + name[|PREFIX|..p] + name[p..p + |MARKER|] + name[p + |MARKER|..e] + name[e..];
  }

  method ParseFileName(name: string) returns (r: Option<Identity>)
    ensures ParsesTo(name, r)
  {
    if |name| < |PREFIX| || name[..|PREFIX|] != PREFIX {
      return None;
    }
    if |name| < |EXTENSION| || name[|name| - |EXTENSION|..] != EXTENSION {
      return None;
    }
    var marker := LastIndexOf(name, MARKER);
    forall g, d | Names(name, g, d)
      ensures marker == Some(MarkerPos(g)) && d == name[MarkerPos(g) + |MARKER|..|name| - |EXTENSION|]
    {
      MarkerIsThere(name, g, d);
      if marker.Some? && marker.value > MarkerPos(g) {
        MarkerIsLast(name, g, d, marker.value);
      }
    }
    if marker.None? || marker.value <= |PREFIX| {
      return None;
    }
    var p := marker.value;
    MarkerBeforeExtension(name, p);
    var group := name[|PREFIX|..p];
    var indexStart := p + |MARKER|;
    var indexLen := |name| - |EXTENSION| - indexStart;
    var indexStr := name[indexStart..indexStart + indexLen];
    if group == "" || indexStr == "" {
      return None;
    }
    var cameraIndex := ParseIndex(indexStr);
    if cameraIndex.None? {
      return None;
    }
    FramedByMarker(name, p);
    assert Names(name, group, indexStr);
    return Some(Identity(group, cameraIndex.value));
  }

  /** The index accumulates in 32 bits; any other character than a digit refuses the name. */
  method ParseIndex(digits: string) returns (r: Option<nat>)
    ensures r.Some? <==> AllDigits(digits)
    ensures r.Some? ==> r.value == Value(digits) % U32_LIMIT
  {
    var index: nat := 0;
    for i := 0 to |digits|
      invariant AllDigits(digits[..i])
      invariant index == Value(digits[..i]) % U32_LIMIT
    {
      var c := digits[i];
      if c < '0' || c > '9' {
        assert !IsDigit(digits[i]);
        return None;
      }
      assert digits[..i + 1][..i] == digits[..i];
      WrapStep(Value(digits[..i]), DigitValue(c));
      index := (index * 10 + DigitValue(c)) % U32_LIMIT;
    }
    assert digits[..|digits|] == digits;
    return Some(index);
  }

  /** One 32-bit accumulation step equals the step on the unbounded value, wrapped. */
  lemma WrapStep(value: nat, digit: nat)
    ensures ((value % U32_LIMIT) * 10 + digit) % U32_LIMIT == (value * 10 + digit) % U32_LIMIT
  {
    var q := value / U32_LIMIT;
    assert value * 10 + digit == (value % U32_LIMIT) * 10 + digit + (q * 10) * U32_LIMIT;
    WrapsAway((value % U32_LIMIT) * 10 + digit, q * 10);
  }

  lemma {:induction false} WrapsAway(x: nat, k: nat)
    ensures (x + k * U32_LIMIT) % U32_LIMIT == x % U32_LIMIT
  {
    if k == 0 {
    } else {
      WrapsAway(x, k - 1);
    }
  }

  // ---------- Printing and parsing undo each other ----------

  lemma FileNameIsAName(id: Identity)
    ensures MadeOf(FileName(id), id.groupId, ToString(id.cameraIndex))
  {
    PrintedIsCanonical(id.cameraIndex);
  }

  /** What the parser answers for a printed name is the identity that was printed, exactly when that has a group. */
  lemma ParseUndoesFileName(id: Identity, r: Option<Identity>)
    requires id.cameraIndex < U32_LIMIT
    requires ParsesTo(FileName(id), r)
    ensures r == Some(id) <==> id.groupId != ""
  {
    ReadUndoesPrint(id.cameraIndex);
    FileNameIsAName(id);
    assert id.groupId != "" ==> Names(FileName(id), id.groupId, ToString(id.cameraIndex));
    if r.Some? && id.groupId != "" {
      var digits :| Names(FileName(id), r.value.groupId, digits) && r.value.cameraIndex == Value(digits) % U32_LIMIT;
      NamesAreUnique(FileName(id), id.groupId, ToString(id.cameraIndex), r.value.groupId, digits);
    }
  }

  /** Different identities have different names, also those without a group. */
  lemma FileNamesAreInjective(a: Identity, b: Identity)
    requires FileName(a) == FileName(b)
    ensures a == b
  {
    FileNameIsAName(a);
    FileNameIsAName(b);
    NamesAreUnique(FileName(a), a.groupId, ToString(a.cameraIndex), b.groupId, ToString(b.cameraIndex));
    ReadUndoesPrint(a.cameraIndex);
    ReadUndoesPrint(b.cameraIndex);
  }

  /** An accepted name is reproduced by printing exactly when its index has no leading zero and fits 32 bits. */
  lemma FileNameUndoesParse(name: string, group: string, digits: string)
    requires Names(name, group, digits)
    ensures FileName(Identity(group, Value(digits) % U32_LIMIT)) == name
       <==> Canonical(digits) && Value(digits) < U32_LIMIT
  {
    var index := Value(digits) % U32_LIMIT;
    if Canonical(digits) && Value(digits) < U32_LIMIT {
      PrintUndoesRead(digits);
    }
    if FileName(Identity(group, index)) == name {
      FileNameIsAName(Identity(group, index));
      NamesAreUnique(name, group, digits, group, ToString(index));
      PrintedIsCanonical(index);
      ReadUndoesPrint(index);
    }
  }
}
