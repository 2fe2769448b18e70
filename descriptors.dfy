/**
 * The two value objects a caller hands to the repository: a sort descriptor
 * (OrderBy) and a filter descriptor (Where), their SQL renderings, the
 * wildcard wrapping of LIKE values, and the JSON decoding of the two filter
 * flags (base/core.go).
 */
module Descriptors {
  import opened Wrappers

  // ---------------------------------------------------------------- OrderBy

  /** A sort key: the column and the direction text exactly as the caller sent it. */
  datatype OrderBy = OrderBy(field: string, direction: string)

  /** Only a non-empty field with the lower-case direction "asc" or "desc" is rendered. */
  predicate IsRecognized(o: OrderBy) {
    o.field != "" && (o.direction == "asc" || o.direction == "desc")
  }

  /** `OrderBy.String`: the ORDER BY item, or "" for a descriptor that is not recognised. */
  function OrderByString(o: OrderBy): (r: string)
    ensures r == "" <==> !IsRecognized(o)
    ensures r != "" ==> r == o.field + " " + o.direction
  {
    if IsRecognized(o) then
      o.field + " " + o.direction
    else
      ""
  }

  /** Reads an ORDER BY item back: the direction is the last word, the field all before it. */
  function ParseOrderClause(s: string): Option<OrderBy> {
    if |s| > 4 && s[|s| - 4..] == " asc" then Some(OrderBy(s[..|s| - 4], "asc"))
    else if |s| > 5 && s[|s| - 5..] == " desc" then Some(OrderBy(s[..|s| - 5], "desc"))
    else None
  }

  /** A recognised descriptor is read back exactly from its rendering; any other renders as "" and reads as nothing. */
  lemma OrderByRoundTrip(o: OrderBy)
    ensures ParseOrderClause(OrderByString(o)) == if IsRecognized(o) then Some(o) else None
  {
    var s := OrderByString(o);
    if IsRecognized(o) {
      assert s == o.field + " " + o.direction;
      if o.direction == "asc" {
        assert s[|s| - 4..] == " asc";
        assert s[..|s| - 4] == o.field;
      } else {
        assert s[|s| - 4..] == "desc";
        assert s[|s| - 5..] == " desc";
        assert s[..|s| - 5] == o.field;
      }
    }
  }

  /** Whatever parses as an ORDER BY item is the rendering of what it parses to. */
  lemma ParseOrderClauseSound(s: string, o: OrderBy)
    requires ParseOrderClause(s) == Some(o)
    ensures IsRecognized(o) && OrderByString(o) == s
  {
    if |s| > 4 && s[|s| - 4..] == " asc" {
      assert s == s[..|s| - 4] + " asc";
    } else {
      assert s == s[..|s| - 5] + " desc";
    }
  }

  /** Two descriptors with the same non-empty rendering are the same descriptor. */
  lemma OrderByStringInjective(a: OrderBy, b: OrderBy)
    requires OrderByString(a) == OrderByString(b) != ""
    ensures a == b
  {
    OrderByRoundTrip(a);
    OrderByRoundTrip(b);
  }

  // ------------------------------------------------------------------ Where

  /**
   * A filter on one column. The two flags come from the JSON fields
   * `is_like` and `is_full_text_search`; the value is modelled as text.
   */
  datatype Where = Where(name: string, isLike: bool, isFullTextSearch: bool, value: string)

  /** The comparison a filter renders to; full-text search takes precedence over LIKE. */
  datatype Mode = Equals | Like | FullTextSearch

  function ModeOf(w: Where): Mode {
    if w.isFullTextSearch then FullTextSearch else if w.isLike then Like else Equals
  }

  const MatchPrefix: string := "MATCH("
  const MatchSuffix: string := ") AGAINST (? IN BOOLEAN MODE)"
  const MatchAgainst: string := ") AGAINST ("
  const MatchBooleanMode: string := " IN BOOLEAN MODE)"
  const LikeSuffix: string := " LIKE ?"
  const EqualsSuffix: string := " = ?"

  /**
   * `Where.String`: the predicate text. It reads back as the filter's mode
   * (full text first, then LIKE, then equality) and its column, and holds
   * exactly one placeholder besides any in the column name. The LIKE flag
   * does not show when the full-text flag is set, and the value never shows.
   */
  function WhereString(w: Where): (r: string)
    ensures ParseWhereClause(r) == Some((ModeOf(w), w.name))
    ensures Placeholders(r) == Placeholders(w.name) + 1
  {
    var whereSql := w.name + EqualsSuffix;
    if w.isFullTextSearch then
      MatchClauseFacts(w.name);
      MatchPrefix + w.name + MatchSuffix
    else if w.isLike then
      LikeClauseFacts(w.name);
      w.name + LikeSuffix
    else
      EqualsClauseFacts(w.name);
      whereSql
  }

  /** Reads a predicate text back into its mode and column, by its fixed prefix and suffixes. */
  function ParseWhereClause(s: string): Option<(Mode, string)> {
    if |s| >= |MatchPrefix| + |MatchSuffix| && s[..|MatchPrefix|] == MatchPrefix
       && s[|s| - |MatchSuffix|..] == MatchSuffix then
      Some((FullTextSearch, s[|MatchPrefix|..|s| - |MatchSuffix|]))
    else if |s| >= |LikeSuffix| && s[|s| - |LikeSuffix|..] == LikeSuffix then
      Some((Like, s[..|s| - |LikeSuffix|]))
    else if |s| >= |EqualsSuffix| && s[|s| - |EqualsSuffix|..] == EqualsSuffix then
      Some((Equals, s[..|s| - |EqualsSuffix|]))
    else None
  }

  /** The full-text shape reads back as full text on its column, with one placeholder more than the column. */
  lemma MatchClauseFacts(name: string)
    ensures ParseWhereClause(MatchPrefix + name + MatchSuffix) == Some((FullTextSearch, name))
    ensures Placeholders(MatchPrefix + name + MatchSuffix) == Placeholders(name) + 1
  {
    var s := MatchPrefix + name + MatchSuffix;
    var n := |s|;
    assert s[..|MatchPrefix|] == MatchPrefix;
    assert s[n - |MatchSuffix|..] == MatchSuffix;
    assert s[|MatchPrefix|..n - |MatchSuffix|] == name;
    MatchPrefixPlaceholders();
    MatchSuffixPlaceholders();
    PlaceholdersConcat(MatchPrefix, name);
    PlaceholdersConcat(MatchPrefix + name, MatchSuffix);
  }

  /** The LIKE shape is not mistaken for full text: it ends in `?`, not `)`. */
  lemma LikeClauseFacts(name: string)
    ensures ParseWhereClause(name + LikeSuffix) == Some((Like, name))
    ensures Placeholders(name + LikeSuffix) == Placeholders(name) + 1
  {
    var s := name + LikeSuffix;
    var n := |s|;
    SuffixMismatch(s, MatchSuffix, 1);
    assert s[n - |LikeSuffix|..] == LikeSuffix;
    assert s[..n - |LikeSuffix|] == name;
    LikeSuffixPlaceholders();
    PlaceholdersConcat(name, LikeSuffix);
  }

  /** Two strings that differ in their k-th character from the end do not end alike. */
  lemma SuffixMismatch(s: string, t: string, k: nat)
    requires 0 < k <= |s| && k <= |t| && s[|s| - k] != t[|t| - k]
    ensures |s| < |t| || s[|s| - |t|..] != t
  {
    if |s| >= |t| {
      assert s[|s| - |t|..][|t| - k] == s[|s| - k];
    }
  }

  /** The equality shape is neither full text nor LIKE: `=` stands where LIKE has its `E`. */
  lemma EqualsClauseFacts(name: string)
    ensures ParseWhereClause(name + EqualsSuffix) == Some((Equals, name))
    ensures Placeholders(name + EqualsSuffix) == Placeholders(name) + 1
  {
    var s := name + EqualsSuffix;
    var n := |s|;
    SuffixMismatch(s, MatchSuffix, 1);
    SuffixMismatch(s, LikeSuffix, 3);
    assert s[n - |EqualsSuffix|..] == EqualsSuffix;
    assert s[..n - |EqualsSuffix|] == name;
    EqualsSuffixPlaceholders();
    PlaceholdersConcat(name, EqualsSuffix);
  }

  /** Full text takes precedence: with the full-text flag set, the LIKE flag does not change the text. */
  lemma FullTextHidesLike(name: string, value: string)
    ensures WhereString(Where(name, true, true, value)) == WhereString(Where(name, false, true, value))
    ensures BoundValue(Where(name, true, true, value)) != BoundValue(Where(name, false, true, value))
  {
  }

  /** Number of positional `?` placeholders in a SQL fragment. */
  function Placeholders(s: string): nat {
    if s == [] then 0 else (if s[0] == '?' then 1 else 0) + Placeholders(s[1..])
  }

  lemma {:induction false} PlaceholdersConcat(a: string, b: string)
    ensures Placeholders(a + b) == Placeholders(a) + Placeholders(b)
  {
    if a == [] {
      assert a + b == b;
    } else {
      assert (a + b)[1..] == a[1..] + b;
      PlaceholdersConcat(a[1..], b);
    }
  }

  lemma {:induction false} NoPlaceholders(s: string)
    requires '?' !in s
    ensures Placeholders(s) == 0
  {
    if s != [] {
      assert s[0] in s;
      assert forall c :: c in s[1..] ==> c in s;
      NoPlaceholders(s[1..]);
    }
  }

  /** A fragment with one `?` between two placeholder-free parts holds one placeholder. */
  lemma OnePlaceholder(before: string, after: string)
    requires '?' !in before && '?' !in after
    ensures Placeholders(before + "?" + after) == 1
  {
    NoPlaceholders(before);
    NoPlaceholders(after);
    PlaceholdersConcat(before, "?");
    PlaceholdersConcat(before + "?", after);
  }

  /** Each fixed part of a rendering holds exactly one placeholder, or none. */
  lemma MatchPrefixPlaceholders()
    ensures Placeholders(MatchPrefix) == 0
  {
    NoPlaceholders(MatchPrefix);
  }

  lemma MatchSuffixPlaceholders()
    ensures Placeholders(MatchSuffix) == 1
  {
    MatchSuffixSplit();
    AgainstPlaceholders();
    BooleanModePlaceholders();
    PlaceholdersConcat(MatchAgainst, "?");
    PlaceholdersConcat(MatchAgainst + "?", MatchBooleanMode);
  }

  /** The full-text suffix is one `?` between two placeholder-free pieces. */
  lemma MatchSuffixSplit()
    ensures MatchSuffix == MatchAgainst + "?" + MatchBooleanMode
  {
    assert MatchSuffix[..11] == MatchAgainst;
    assert MatchSuffix[11] == '?';
    assert MatchSuffix[12..] == MatchBooleanMode;
    assert MatchSuffix == MatchSuffix[..11] + [MatchSuffix[11]] + MatchSuffix[12..];
  }

  lemma AgainstPlaceholders()
    ensures Placeholders(MatchAgainst) == 0
  {
    NoPlaceholders(MatchAgainst);
  }

  lemma BooleanModePlaceholders()
    ensures Placeholders(MatchBooleanMode) == 0
  {
    NoPlaceholders(MatchBooleanMode);
  }

  lemma LikeSuffixPlaceholders()
    ensures Placeholders(LikeSuffix) == 1
  {
    OnePlaceholder(" LIKE ", "");
    assert LikeSuffix == " LIKE " + "?" + "";
  }

  lemma EqualsSuffixPlaceholders()
    ensures Placeholders(EqualsSuffix) == 1
  {
    OnePlaceholder(" = ", "");
    assert EqualsSuffix == " = " + "?" + "";
  }

  /**
   * The value bound to the placeholder: wrapped in `%` exactly when the LIKE
   * flag is set, whichever text the full-text flag selects.
   */
  function BoundValue(w: Where): (v: string)
    ensures w.isLike <==> v != w.value
    ensures w.isLike ==> |v| == |w.value| + 2 && v[0] == '%' && v[|v| - 1] == '%' && v[1..|v| - 1] == w.value
  {
    if w.isLike then "%" + w.value + "%" else w.value
  }

  // ------------------------------------------------------- JSON flag decoding

  /** A JSON flag as the decoder meets it: absent, null, a string, or any other JSON value. */
  datatype JsonField = Missing | Null | Str(s: string) | NonString

  /**
   * A filter document. `Malformed` is text that is not valid JSON,
   * `NullDocument` the JSON literal null, `NonObject` any other JSON value
   * that is not an object (a number, string, boolean or array); in an object
   * the value field is given already decoded (absent or its text).
   */
  datatype WhereDocument =
    | Malformed
    | NullDocument
    | NonObject
    | Object(name: JsonField, isLike: JsonField, isFullTextSearch: JsonField, value: Option<string>)

  datatype JsonError = SyntaxError | UnmarshalTypeError

  /** The string a flag decodes into: its text, or "" when it is absent or null. */
  function FlagText(f: JsonField): string {
    if f.Str? then f.s else ""
  }

  /** The flag normalisation of `UnmarshalJSON`. */
  function DecodeFlag(s: string): (b: bool)
    ensures b <==> s in {"1", "true"}
  {
    s == "1" || s == "true"
  }

  /** A non-string JSON value meets a field typed as a string. */
  predicate HasTypeError(doc: WhereDocument)
    requires doc.Object?
  {
    doc.name.NonString? || doc.isLike.NonString? || doc.isFullTextSearch.NonString?
  }

  /** A `*Where`: the receiver that `UnmarshalJSON` writes in place. */
  class WhereRef {
    var w: Where

    constructor (w: Where)
      ensures this.w == w
    {
      this.w := w;
    }

    /**
     * `Where.UnmarshalJSON`. Name and value are decoded straight into the
     * receiver; the flags go through string fields and then become true
     * exactly for "1" and "true". A native JSON boolean in a flag is a type
     * error, after which the flags keep their old values.
     */
    method UnmarshalJSON(doc: WhereDocument) returns (err: Option<JsonError>)
      modifies this
      ensures doc.Malformed? ==> err == Some(SyntaxError) && w == old(w)
      ensures doc.NonObject? ==> err == Some(UnmarshalTypeError) && w == old(w)
      ensures doc.NullDocument? ==>
        err == None && w == old(w).(isLike := false, isFullTextSearch := false)
      ensures doc.Object? ==> w.name == (if doc.name.Str? then doc.name.s else old(w.name))
      ensures doc.Object? ==> w.value == (if doc.value.Some? then doc.value.value else old(w.value))
      ensures doc.Object? && HasTypeError(doc) ==>
        err == Some(UnmarshalTypeError) &&
        w.isLike == old(w.isLike) && w.isFullTextSearch == old(w.isFullTextSearch)
      ensures doc.Object? && !HasTypeError(doc) ==>
        err == None &&
        (w.isLike <==> doc.isLike in {Str("1"), Str("true")}) &&
        (w.isFullTextSearch <==> doc.isFullTextSearch in {Str("1"), Str("true")})
    {
      if doc.Malformed? {
        return Some(SyntaxError);
      }
      if doc.NonObject? {
        return Some(UnmarshalTypeError);
      }
      if doc.NullDocument? {
        // null decodes into nothing: both string flags stay "", so both become false
        w := w.(isFullTextSearch := DecodeFlag(""), isLike := DecodeFlag(""));
        return None;
      }
      // json.Unmarshal into the alias: the fields it can decode land in the receiver
      if doc.name.Str? {
        w := w.(name := doc.name.s);
      }
      if doc.value.Some? {
        w := w.(value := doc.value.value);
      }
      if HasTypeError(doc) {
        return Some(UnmarshalTypeError);
      }
      var auxFullText, auxLike := FlagText(doc.isFullTextSearch), FlagText(doc.isLike);
      w := w.(isFullTextSearch := DecodeFlag(auxFullText), isLike := DecodeFlag(auxLike));
      err := None;
    }
  }
}
