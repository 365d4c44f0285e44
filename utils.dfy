/**
 * The string helpers of src/utils.py: reading a query's readset, the greedy
 * title wrapper `wrap`, and `parse_user_key`, the inverse of the
 * `user_id#instance_id` key the trace loader builds.
 */
module Utils {
  import opened Wrappers
  import opened Strings
  import opened Sorting

  // ---------------------------------------------------------------- readsets

  /**
   * What `get_readset_from_user_query` returns: the empty list `[]` for a
   * missing `read_table_ids` (a list, hence not usable as a dict key), or a
   * tuple of table ids.
   */
  datatype ReadsetValue = EmptyList | Tuple(ids: seq<int>)

  /** `map(int, fields)`, forced: the parsed fields, or None if one of them is not an integer. */
  function ParseAll(fields: seq<string>): (r: Option<seq<int>>)
    ensures r.Some? ==> |r.value| == |fields|
  {
    AllParsed(ParseInt, fields)
  }

  /** Applies `parse` to every field; None as soon as one field has no value. */
  function AllParsed<T>(parse: string -> Option<T>, fields: seq<string>): (r: Option<seq<T>>)
    ensures r.Some? ==> |r.value| == |fields|
  {
    if fields == [] then Some([])
    else
      var head := parse(fields[0]);
      var tail := AllParsed(parse, fields[1..]);
      if head.None? || tail.None? then None
      else Some([head.value] + tail.value)
  }

  /** All fields parse exactly when `AllParsed` succeeds, and then it lists their values in order. */
  lemma {:induction false} AllParsedFields<T>(parse: string -> Option<T>, fields: seq<string>)
    ensures AllParsed(parse, fields).Some? <==> forall i :: 0 <= i < |fields| ==> parse(fields[i]).Some?
    ensures AllParsed(parse, fields).Some? ==>
      forall i :: 0 <= i < |fields| ==> parse(fields[i]) == Some(AllParsed(parse, fields).value[i])
  {
    if fields != [] {
      var tail := fields[1..];
      AllParsedFields(parse, tail);
      assert forall i :: 1 <= i < |fields| ==> fields[i] == tail[i - 1];
    }
  }

  /** `get_readset_from_user_query` (src/utils.py:73-76). */
  function ReadsetOf(readTableIds: Option<string>): (r: Result<ReadsetValue>)
  {
    match readTableIds
    case None => Ok(EmptyList)
    case Some(text) =>
      match ParseAll(Split(text, ","))
      case None => Err(ValueError("invalid literal for int()"))
      case Some(ids) => Ok(Tuple(Sort(ids, IntLe)))
  }

  /** A missing readset gives the empty list; a present one is its fields as integers, sorted, and nothing else. */
  lemma ReadsetShape(readTableIds: Option<string>)
    ensures readTableIds.None? ==> ReadsetOf(readTableIds) == Ok(EmptyList)
    ensures readTableIds.Some? ==> ReadsetOf(readTableIds) != Ok(EmptyList)
    ensures readTableIds.Some? && ReadsetOf(readTableIds).Ok? ==>
      var fields := Split(readTableIds.value, ",");
      var ids := ReadsetOf(readTableIds).value.ids;
      && SortedBy(ids, IntLe)
      && ParseAll(fields).Some?
      && multiset(ids) == multiset(ParseAll(fields).value)
  {
    IntLeTotal();
    if readTableIds.Some? && ReadsetOf(readTableIds).Ok? {
      SortSorted(ParseAll(Split(readTableIds.value, ",")).value, IntLe);
    }
  }

  /** The comma-separated rendering of a list of table ids. */
  function IdsCsv(ids: seq<int>): string {
    Join(IntsToStrings(ids), ",")
  }

  function IntsToStrings(ids: seq<int>): (r: seq<string>)
    ensures |r| == |ids| && forall i :: 0 <= i < |ids| ==> r[i] == IntToString(ids[i])
  {
    if ids == [] then [] else [IntToString(ids[0])] + IntsToStrings(ids[1..])
  }

  /** Reading the rendering of any non-empty list of ids gives those ids sorted. */
  lemma ReadsetOfCsv(ids: seq<int>)
    requires |ids| >= 1
    ensures ReadsetOf(Some(IdsCsv(ids))) == Ok(Tuple(Sort(ids, IntLe)))
  {
    CsvFields(ids);
    ParsedIds(ids);
  }

  /** Splitting the rendering at commas gives back one field per id. */
  lemma CsvFields(ids: seq<int>)
    requires |ids| >= 1
    ensures Split(IdsCsv(ids), ",") == IntsToStrings(ids)
  {
    var strs := IntsToStrings(ids);
    forall p | p in strs ensures ',' !in p {
      var i :| 0 <= i < |strs| && strs[i] == p;
      IntToStringChars(ids[i]);
    }
    JoinSplit(strs, ',');
  }

  /** Every rendered id parses back to itself. */
  lemma ParsedIds(ids: seq<int>)
    ensures ParseAll(IntsToStrings(ids)) == Some(ids)
  {
    var strs := IntsToStrings(ids);
    AllParsedFields(ParseInt, strs);
    forall i | 0 <= i < |strs| ensures ParseInt(strs[i]) == Some(ids[i]) {
      IntRoundTrip(ids[i]);
    }
    var parsed := ParseAll(strs);
    assert parsed.Some? && parsed.value == ids;
  }

  /** The readset of a query does not depend on the order its tables are listed in. */
  lemma ReadsetOrderIndependent(a: seq<int>, b: seq<int>)
    requires |a| >= 1 && multiset(a) == multiset(b)
    ensures ReadsetOf(Some(IdsCsv(a))) == ReadsetOf(Some(IdsCsv(b)))
  {
    assert |b| == |multiset(b)| == |a|;
    ReadsetOfCsv(a);
    ReadsetOfCsv(b);
    IntLeTotal();
    SortCanonical(a, b, IntLe);
  }

  // ---------------------------------------------------------------- wrap

  /** `wrap` (src/utils.py:83-95): cut `text` at the first space at or after `width`, repeatedly. */
  method Wrap(text: string, width: int) returns (res: seq<string>)
    ensures |res| >= 1
    ensures Join(res, " ") == text
    ensures width >= 0 ==> forall i :: 0 <= i < |res| - 1 ==> |res[i]| >= width
    ensures width >= 0 ==> forall i, j :: 0 <= i < |res| - 1 && width <= j < |res[i]| ==> res[i][j] != ' '
    ensures width >= 0 ==>
      var last := res[|res| - 1];
      |last| <= width || forall j :: width <= j < |last| ==> last[j] != ' '
  {
    res := [];
    var rest := text;
    while true
      invariant Join(res + [rest], " ") == text
      invariant width >= 0 ==> forall i :: 0 <= i < |res| ==> |res[i]| >= width
      invariant width >= 0 ==> forall i, j :: 0 <= i < |res| && width <= j < |res[i]| ==> res[i][j] != ' '
      decreases |rest|
    {
      if |rest| <= width {
        res := res + [rest];
        return;
      }
      var idx := PyFind(rest, " ", width);
      if idx.None? {
        res := res + [rest];
        if width >= 0 {
          forall j | width <= j < |rest| ensures rest[j] != ' ' {
            assert !OccursAt(rest, " ", j);
          }
        }
        return;
      }
      var i := idx.value;
      var piece, after := rest[..i], rest[i + 1..];
      assert rest == piece + " " + after;
      SpacePieces(res, piece, after);
      if width >= 0 {
        forall j | width <= j < |piece| ensures piece[j] != ' ' {
          assert !OccursAt(rest, " ", j);
        }
      }
      res := res + [piece];
      rest := after;
    }
  }

  /** Cutting the last part at a space keeps what the parts join to. */
  lemma SpacePieces(done: seq<string>, a: string, b: string)
    ensures Join(done + [a + " " + b], " ") == Join(done + [a] + [b], " ")
  {
    if |done| >= 1 {
      JoinSnoc(done, a + " " + b, " ");
      JoinSnoc(done + [a], b, " ");
      JoinSnoc(done, a, " ");
    } else {
      assert done + [a] + [b] == [a, b];
    }
  }

  // ---------------------------------------------------------------- user keys

  datatype UserKey = UserKey(userId: int, instanceId: int)

  /** `parse_user_key` (src/utils.py:141-145): the integers before and after the first `#`. */
  function ParseUserKey(key: string): (r: Result<UserKey>)
  {
    var fields := Split(key, "#");
    match ParseInt(fields[0])
    case None => Err(ValueError("invalid literal for int()"))
    case Some(u) =>
      if |fields| < 2 then Err(IndexError("list index out of range"))
      else match ParseInt(fields[1])
        case None => Err(ValueError("invalid literal for int()"))
        case Some(i) => Ok(UserKey(u, i))
  }

  /** The user key built as `concat(user_id, '#', instance_id)`. */
  function UserKeyText(userId: int, instanceId: int): string {
    IntToString(userId) + "#" + IntToString(instanceId)
  }

  /** `parse_user_key` inverts the key format. */
  lemma UserKeyRoundTrip(userId: int, instanceId: int)
    ensures ParseUserKey(UserKeyText(userId, instanceId)) == Ok(UserKey(userId, instanceId))
  {
    IntToStringChars(userId);
    IntToStringChars(instanceId);
    SplitAtChar(IntToString(userId), '#', IntToString(instanceId));
    SplitNoChar(IntToString(instanceId), '#');
    IntRoundTrip(userId);
    IntRoundTrip(instanceId);
  }

  /** A key without `#` is refused: by `int()` if its text is not a number, by the index otherwise. */
  lemma UserKeyWithoutHash(key: string)
    requires '#' !in key
    ensures ParseUserKey(key).Err?
    ensures ParseInt(key).Some? ==> ParseUserKey(key) == Err(IndexError("list index out of range"))
  {
    SplitNoChar(key, '#');
  }
}
