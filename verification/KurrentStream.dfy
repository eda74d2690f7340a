/** KurrentDB stream names (printed and parsed back) and version / position arithmetic. */
module KurrentStream {
  import opened Wrappers
  import opened Seqs
  import opened Events
  import opened Ranges
  import opened InMemoryStore

  datatype NameError = IllegalTenantId | IllegalCategoryName | NotAName

  // What a name stands for; `hex` is the uuid as 32 lower-case digits.
  datatype Address = Address(tenant: string, category: Option<string>, hex: string)

  const HEX_DIGITS := "0123456789abcdef"
  const SNAPSHOT_SUFFIX := "-snapshot"

  predicate IsHex(s: string) {
    |s| == 32 && forall i :: 0 <= i < |s| ==> s[i] in HEX_DIGITS
  }

  function Print(a: Address): (r: Result<string, NameError>)
    ensures r.Success? <==> '-' !in a.tenant && (a.category.Some? ==> '-' !in a.category.value)
    ensures r.Failure? && '-' in a.tenant ==> r.error == IllegalTenantId
    ensures r.Failure? && '-' !in a.tenant ==> r.error == IllegalCategoryName
  {
    if '-' in a.tenant then Failure(IllegalTenantId)
    else if '-' in CategoryText(a.category) then Failure(IllegalCategoryName)
    else Success(CategoryText(a.category) + "-" + a.tenant + "-" + a.hex)
  }

  function SnapshotName(name: string): string {
    name + SNAPSHOT_SUFFIX
  }

  predicate EndsWith(s: string, suffix: string) {
    |suffix| <= |s| && s[|s| - |suffix|..] == suffix
  }

  // uuid text may carry dashes; without them it must be 32 digits.
  function WithoutDashes(s: string): string {
    Filter((c: char) => c != '-', s)
  }

  function Parse(name: string): Result<Address, NameError> {
    var text := if EndsWith(name, SNAPSHOT_SUFFIX) then name[..|name| - |SNAPSHOT_SUFFIX|] else name;
    var i := FirstIndex('-', text);
    if i == |text| then Failure(NotAName)
    else
      var rest := text[i + 1..];
      var j := FirstIndex('-', rest);
      if j == |rest| then Failure(NotAName)
      else
        var hex := WithoutDashes(rest[j + 1..]);
        if !IsHex(hex) then Failure(NotAName)
        else Success(Address(rest[..j], if i == 0 then None else Some(text[..i]), hex))
  }

  lemma {:induction false} HexHasNoDash(hex: string)
    requires forall i :: 0 <= i < |hex| ==> hex[i] in HEX_DIGITS
    ensures WithoutDashes(hex) == hex
  {
    FilterAll((c: char) => c != '-', hex);
  }

  lemma {:induction false} LastOfSuffix(s: string, suffix: string)
    requires suffix != [] && EndsWith(s, suffix)
    ensures s[|s| - 1] == suffix[|suffix| - 1]
  {
    assert s[|s| - |suffix|..][|suffix| - 1] == s[|s| - 1];
  }

  lemma {:induction false} NotASnapshotName(a: Address)
    requires IsHex(a.hex) && Print(a).Success?
    ensures !EndsWith(Print(a).value, SNAPSHOT_SUFFIX)
  {
    var name := Print(a).value;
    assert name[|name| - 1] == a.hex[31];
    assert SNAPSHOT_SUFFIX[8] == 't';
    if EndsWith(name, SNAPSHOT_SUFFIX) {
      LastOfSuffix(name, SNAPSHOT_SUFFIX);
    }
  }

  lemma {:induction false} SplitsInThree(category: string, tenant: string, hex: string)
    requires '-' !in category && '-' !in tenant
    ensures var text := category + "-" + tenant + "-" + hex;
            var i := FirstIndex('-', text);
            && i == |category| < |text| && text[..i] == category
            && text[i + 1..] == tenant + "-" + hex
            && FirstIndex('-', text[i + 1..]) == |tenant| < |text[i + 1..]|
            && text[i + 1..][..|tenant|] == tenant && text[i + 1..][|tenant| + 1..] == hex
  {
    var text, rest := category + "-" + tenant + "-" + hex, tenant + "-" + hex;
    assert text == category + "-" + rest;
    FirstIndexAfter('-', category, rest);
    FirstIndexAfter('-', tenant, hex);
    assert text[|category| + 1..] == rest;
  }

  lemma {:induction false} PlainNamesParse(category: string, tenant: string, hex: string)
    requires '-' !in category && '-' !in tenant && IsHex(hex)
    requires !EndsWith(category + "-" + tenant + "-" + hex, SNAPSHOT_SUFFIX)
    ensures Parse(category + "-" + tenant + "-" + hex)
         == Success(Address(tenant, if category == "" then None else Some(category), hex))
  {
    SplitsInThree(category, tenant, hex);
    HexHasNoDash(hex);
    hide FirstIndex, WithoutDashes, IsHex, EndsWith;
  }

  lemma {:induction false} SnapshotNamesParse(name: string)
    requires !EndsWith(name, SNAPSHOT_SUFFIX)
    ensures Parse(SnapshotName(name)) == Parse(name)
  {
    hide FirstIndex, WithoutDashes, IsHex;
    assert SnapshotName(name)[..|name|] == name;
    assert SnapshotName(name)[|name|..] == SNAPSHOT_SUFFIX;
  }

  // A printed name and its snapshot name both parse to the tenant, the uuid and the
  // category, where an empty category has become an absent one.
  lemma {:induction false} PrintedNamesParse(a: Address)
    requires IsHex(a.hex) && Print(a).Success?
    ensures var back := a.(category := if CategoryText(a.category) == "" then None else a.category);
            Parse(Print(a).value) == Success(back) && Parse(SnapshotName(Print(a).value)) == Success(back)
  {
    NotASnapshotName(a);
    PlainNamesParse(CategoryText(a.category), a.tenant, a.hex);
    SnapshotNamesParse(Print(a).value);
    hide Parse, EndsWith;
  }

  // The name gives everything back exactly when the category is not the empty string.
  lemma {:induction false} RoundTripIff(a: Address)
    requires IsHex(a.hex) && Print(a).Success?
    ensures Parse(Print(a).value) == Success(a) <==> a.category != Some("")
    ensures Parse(SnapshotName(Print(a).value)) == Success(a) <==> a.category != Some("")
  {
    PrintedNamesParse(a);
  }

  // Different addresses print differently, and no snapshot name is an event stream's name.
  lemma {:induction false} NamesDoNotCollide(a: Address, b: Address)
    requires IsHex(a.hex) && IsHex(b.hex) && Print(a).Success? && Print(b).Success?
    requires a.category != Some("") && b.category != Some("")
    ensures Print(a) == Print(b) <==> a == b
    ensures SnapshotName(Print(a).value) == SnapshotName(Print(b).value) <==> a == b
    ensures SnapshotName(Print(a).value) != Print(b).value
  {
    PrintedNamesParse(a);
    PrintedNamesParse(b);
    NotASnapshotName(b);
    var name := SnapshotName(Print(a).value);
    assert name[|name| - |SNAPSHOT_SUFFIX|..] == SNAPSHOT_SUFFIX;
  }

  /******* Positions *******/

  const MAX_POSITION := 0x7fff_ffff_ffff_ffff

  function FromVersion(version: int): int {
    version - 1
  }

  // Absent and zero bounds are falsy: they are passed on, or taken for no bound.
  function Scope(start: Option<int>, stop: Option<int>): (Option<int>, int) {
    var first := if start.Some? && start.value != 0 then Some(FromVersion(start.value)) else start;
    var bounded := stop.Some? && stop.value != 0 && FromVersion(stop.value) != 0;
    var last := if bounded then FromVersion(stop.value) else MAX_POSITION;
    (first, last - if first.Some? then first.value else 0)
  }

  // read_stream(stream_position, limit): the event with version v sits at position v - 1.
  function WindowRead(events: seq<RawEvent>, start: Option<int>, stop: Option<int>): seq<RawEvent> {
    var (position, limit) := Scope(start, stop);
    var from := if position.Some? then position.value else 0;
    Between(events, from, from + limit)
  }

  lemma {:induction false} WholeWindow(events: seq<RawEvent>, hi: int)
    ensures |events| <= hi ==> Between(events, 0, hi) == events
    ensures hi <= 0 ==> Between(events, 0, hi) == []
  {
  }

  lemma {:induction false} WindowBounds(events: seq<RawEvent>, start: Option<int>, stop: Option<int>)
    requires Natural(start) && Natural(stop)
    ensures WindowRead(events, start, stop) == Between(
              events,
              if start.None? || start.value == 0 then 0 else start.value - 1,
              if stop.None? || stop.value <= 1 then MAX_POSITION else stop.value - 1)
  {
  }

  lemma {:induction false} LongerPiece(events: seq<RawEvent>, lo: int, hi: int)
    requires |events| <= hi
    ensures Between(events, lo, hi) == Between(events, lo, |events|)
  {
  }

  // The position window agrees too, except that a stop of zero or one is falsy and
  // opens the window to the end.
  lemma {:induction false} WindowIsVersionRangeIff(events: seq<RawEvent>, start: Option<int>, stop: Option<int>)
    requires NumberedFrom(events, 0) && |events| <= MAX_POSITION
    requires Natural(start) && Natural(stop)
    requires start.Some? && stop.Some? ==> start.value <= stop.value
    requires start.Some? ==> start.value <= MAX_POSITION
    ensures WindowRead(events, start, stop) == VersionRange(events, start, stop)
            <==> stop.None? || stop.value >= 2 || events == []
  {
    VersionRangeIsPiece(events, 0, start, stop);
    WindowBounds(events, start, stop);
    var lo := if start.None? || start.value == 0 then 0 else start.value - 1;
    var hi := if stop.None? then |events| else stop.value - 1;
    assert VersionRange(events, start, stop) == Between(events, lo, hi);
    if stop.None? {
      LongerPiece(events, lo, MAX_POSITION);
    } else if stop.value <= 1 {
      WholeWindow(events, MAX_POSITION);
      WholeWindow(events, hi);
    }
  }
}
