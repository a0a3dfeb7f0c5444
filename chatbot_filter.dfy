/**
 * The static post filters of the C chatbot (chatbot/Filter.c): a filter is
 * a text pattern, a regular expression or the short-body test, and
 * `postMatchesFilter` reports whether a post's body matches it, writing
 * the matched span through two optional `unsigned` out-pointers.
 */
module ChatbotFilter {
  import opened Wrappers

  newtype byte = x: int | 0 <= x < 0x100

  /** C's 32-bit `unsigned`. */
  newtype u32 = x: int | 0 <= x < 0x1_0000_0000

  /** A NUL-terminated C string, as the bytes before its terminator. */
  type CString = s: seq<byte> | forall i :: 0 <= i < |s| ==> s[i] != 0

  /**
   * The conversion `(unsigned)n`: the identity on the values an `unsigned`
   * holds, and unchanged by adding or removing a multiple of 2^32
   * (`ToU32Periodic`); so `(unsigned)-1` is 0xffff_ffff.
   */
  function ToU32(n: int): (r: u32)
    ensures 0 <= n < 0x1_0000_0000 ==> r as int == n
  {
    (n % 0x1_0000_0000) as u32
  }

  /** The conversion only depends on its argument modulo 2^32. */
  lemma ToU32Periodic(n: int)
    ensures ToU32(n + 0x1_0000_0000) == ToU32(n)
    ensures ToU32(n - 0x1_0000_0000) == ToU32(n)
    ensures ToU32(-1) == 0xffff_ffff
  {
  }

  /** `FilterType`; a value outside the three named ones is kept as its code. */
  datatype FilterType = FilterText | FilterRegex | FilterShortBody | InvalidType(code: int)

  class Filter {
    const desc: CString
    /** The pattern: the text searched for, or the source of the regular expression. */
    const filter: CString
    const filterType: FilterType
    var truePositives: u32
    var falsePositives: u32

    /** `createFilter`: a filter holding copies of its arguments. */
    constructor CreateFilter(desc: CString, filter: CString, filterType: FilterType,
                             truePositives: u32, falsePositives: u32)
      ensures this.desc == desc && this.filter == filter && this.filterType == filterType
      ensures this.truePositives == truePositives && this.falsePositives == falsePositives
    {
      this.desc := desc;
      this.filter := filter;
      this.filterType := filterType;
      this.truePositives := truePositives;
      this.falsePositives := falsePositives;
    }
  }

  datatype Post = Post(body: CString)

  /** An `unsigned` object that an `unsigned *` out-parameter points to. */
  class Unsigned {
    var value: u32
    constructor (value: u32)
      ensures this.value == value
    {
      this.value := value;
    }
  }

  /** What `regexec` reports for one match: none, the match's `rm_so`/`rm_eo`, or an error code. */
  datatype RegexResult = NoMatch | Matched(so: int, eo: int) | RegexError(code: int)

  /** What `postMatchesFilter` does: return a byte, or print an error and exit. */
  datatype MatchOutcome = Returned(value: byte) | InvalidFilterType(code: int) | RegexFailed(code: int)

  predicate OccursAt(hay: seq<byte>, needle: seq<byte>, i: int)
  {
    0 <= i && i + |needle| <= |hay| && hay[i..i + |needle|] == needle
  }

  function FindFrom(hay: seq<byte>, needle: seq<byte>, from: nat): (r: Option<nat>)
    requires from <= |hay|
    ensures r.Some? ==> from <= r.value && OccursAt(hay, needle, r.value)
    ensures r.Some? ==> forall k :: from <= k < r.value ==> !OccursAt(hay, needle, k)
    ensures r.None? ==> forall k :: from <= k ==> !OccursAt(hay, needle, k)
    decreases |hay| - from
  {
    if OccursAt(hay, needle, from) then Some(from)
    else if from == |hay| then None
    else FindFrom(hay, needle, from + 1)
  }

  /** `strstr`: the offset of the first occurrence of `needle` in `hay`, if any. */
  function Find(hay: seq<byte>, needle: seq<byte>): (r: Option<nat>)
    ensures r.Some? <==> exists i :: OccursAt(hay, needle, i)
    ensures r.Some? ==> OccursAt(hay, needle, r.value)
                        && forall k :: 0 <= k < r.value ==> !OccursAt(hay, needle, k)
  {
    FindFrom(hay, needle, 0)
  }

  /** The value `postMatchesFilter` returns, or the failure it exits with. */
  function Match(body: CString, filterType: FilterType, pattern: CString,
                 regexec: seq<byte> -> RegexResult): MatchOutcome
  {
    match filterType
    case FilterText => Returned(if Find(body, pattern).Some? then 1 else 0)
    case FilterRegex =>
      (match regexec(body)
       case NoMatch => Returned(0)
       case Matched(_, _) => Returned(1)
       case RegexError(code) => RegexFailed(code))
    case FilterShortBody => Returned(if |body| < 500 then 1 else 0)
    case InvalidType(code) => InvalidFilterType(code)
  }

  /** The start and end offsets written through the out-pointers, if any are written. */
  function Span(body: CString, filterType: FilterType, pattern: CString,
                regexec: seq<byte> -> RegexResult): Option<(u32, u32)>
  {
    match filterType
    case FilterText =>
      (match Find(body, pattern)
       case Some(start) => Some((ToU32(start), ToU32(start + |pattern|)))
       case None => None)
    case FilterRegex =>
      (match regexec(body)
       case Matched(so, eo) => Some((ToU32(so), ToU32(eo)))
       case _ => None)
    case _ => None
  }

  /**
   * The out-pointers after the call: unchanged when no span is written;
   * otherwise each non-null one holds its offset, and when both point to
   * the same `unsigned` the end offset, written last, is what it holds.
   */
  twostate predicate Wrote(outStart: Unsigned?, outEnd: Unsigned?, span: Option<(u32, u32)>)
    reads outStart, outEnd
  {
    match span
    case None =>
      (outStart != null ==> outStart.value == old(outStart.value))
      && (outEnd != null ==> outEnd.value == old(outEnd.value))
    case Some(offsets) =>
      (outStart != null ==> outStart.value == if outStart == outEnd then offsets.1 else offsets.0)
      && (outEnd != null ==> outEnd.value == offsets.1)
  }

  /** `matchRegexFilter`. */
  method MatchRegexFilter(post: Post, filter: Filter, outStart: Unsigned?, outEnd: Unsigned?,
                          regexec: seq<byte> -> RegexResult) returns (outcome: MatchOutcome)
    requires filter.filterType == FilterRegex
    modifies outStart, outEnd
    ensures outcome == Match(post.body, filter.filterType, filter.filter, regexec)
    ensures Wrote(outStart, outEnd, Span(post.body, filter.filterType, filter.filter, regexec))
  {
    var result := regexec(post.body);
    match result {
      case NoMatch =>
        return Returned(0);
      case RegexError(code) =>
        return RegexFailed(code);
      case Matched(so, eo) =>
        if outStart != null {
          outStart.value := ToU32(so);
        }
        if outEnd != null {
          outEnd.value := ToU32(eo);
        }
        return Returned(1);
    }
  }

  /** `postMatchesFilter`. */
  method PostMatchesFilter(post: Post, filter: Filter, outStart: Unsigned?, outEnd: Unsigned?,
                           regexec: seq<byte> -> RegexResult) returns (outcome: MatchOutcome)
    modifies outStart, outEnd
    ensures outcome == Match(post.body, filter.filterType, filter.filter, regexec)
    ensures Wrote(outStart, outEnd, Span(post.body, filter.filterType, filter.filter, regexec))
  {
    match filter.filterType {
      case FilterText =>
        var start := Find(post.body, filter.filter);
        if start.Some? {
          if outStart != null {
            outStart.value := ToU32(start.value);
          }
          if outEnd != null {
            outEnd.value := ToU32(start.value + |filter.filter|);
          }
          return Returned(1);
        }
        return Returned(0);
      case FilterRegex =>
        outcome := MatchRegexFilter(post, filter, outStart, outEnd, regexec);
      case FilterShortBody =>
        return Returned(if |post.body| < 500 then 1 else 0);
      case InvalidType(code) =>
        return InvalidFilterType(code);
    }
  }

  /** A text filter matches exactly when its pattern occurs in the body. */
  lemma TextMatchIffOccurs(body: CString, pattern: CString, regexec: seq<byte> -> RegexResult)
    ensures Match(body, FilterText, pattern, regexec) == Returned(1)
            <==> exists i :: OccursAt(body, pattern, i)
    ensures Match(body, FilterText, pattern, regexec) == Returned(0)
            <==> forall i :: !OccursAt(body, pattern, i)
  {
  }

  /**
   * On a text match the start offset is that of the first occurrence, and
   * in `unsigned` arithmetic the end minus the start is the pattern's length.
   */
  lemma TextSpanIsFirstOccurrence(body: CString, pattern: CString, regexec: seq<byte> -> RegexResult)
    requires exists i :: OccursAt(body, pattern, i)
    requires |body| < 0x1_0000_0000
    ensures var span := Span(body, FilterText, pattern, regexec);
      && span.Some?
      && OccursAt(body, pattern, span.value.0 as int)
      && (forall k :: 0 <= k < span.value.0 as int ==> !OccursAt(body, pattern, k))
      && (span.value.1 as int - span.value.0 as int) % 0x1_0000_0000 == |pattern|
  {
  }

  /**
   * Only a match of a text or regular-expression filter writes a span; a
   * short-body filter matches exactly the bodies under 500 bytes, and an
   * unknown type always fails.
   */
  lemma OutcomeCases(body: CString, filterType: FilterType, pattern: CString,
                     regexec: seq<byte> -> RegexResult)
    ensures var m := Match(body, filterType, pattern, regexec);
      && (Span(body, filterType, pattern, regexec).Some?
          <==> (filterType == FilterText || filterType == FilterRegex) && m == Returned(1))
      && (m.Returned? ==> m.value == 0 || m.value == 1)
      && (filterType == FilterShortBody ==> (m == Returned(1) <==> |body| < 500))
      && (m.InvalidFilterType? <==> filterType.InvalidType?)
      && (m.RegexFailed? ==> filterType == FilterRegex)
  {
  }
}
