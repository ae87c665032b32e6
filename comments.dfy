/**
 * Picking the comments out of an item's history: Taiga's history entries
 * carry `type` 1 for a change, and a change with non-blank `comment` text is
 * a comment.
 */
module CommentHistory {
  import opened Results
  import opened JsValues
  import opened QueryFiltering

  /** A history entry that is a comment: type 1 and a comment that is not blank. */
  predicate IsComment(entry: JsValue) {
    && entry.Obj?
    && "type" in entry.props && entry.props["type"] == Num(1)
    && "comment" in entry.props && entry.props["comment"].Str?
    && Trim(entry.props["comment"].s) != []
  }

  /**
   * An entry the test throws on: reading `type` of null or undefined, or
   * calling `trim` on a truthy comment that is not a string.
   */
  predicate Throws(entry: JsValue) {
    || Nullish(entry)
    || (&& entry.Obj?
        && "type" in entry.props && entry.props["type"] == Num(1)
        && "comment" in entry.props && Truthy(entry.props["comment"]) && !entry.props["comment"].Str?)
  }

  /** A key that is neither `length` nor an index is found on objects only. */
  lemma PlainKey(v: JsValue, key: string)
    requires key != "length" && key != [] && !IsDigit(key[0])
    ensures !v.Obj? && !Nullish(v) ==> Property(v, key) == Ok(Undefined)
  {
    assert key[0] in key;
  }

  /** `entry.type === 1 && entry.comment && entry.comment.trim().length > 0` */
  function CommentTest(entry: JsValue): (r: Result<bool>)
    ensures r.Err? <==> Throws(entry)
    ensures r.Ok? ==> (r.value <==> IsComment(entry))
  {
    PlainKey(entry, "type");
    PlainKey(entry, "comment");
    match Property(entry, "type")
    case Err(e) => Err(e)
    case Ok(t) =>
      if !StrictEquals(t, Num(1)) then Ok(false)
      else
        var c := Property(entry, "comment").value;
        if !Truthy(c) then Ok(false)
        else if c.Str? then Ok(|Trim(c.s)| > 0)
        else Err(TypeError("entry.comment.trim is not a function"))
  }

  /** `history.filter(entry => ...)`: every entry is tested, in order, until one throws. */
  function FilterEntries(history: seq<JsValue>): (r: Result<seq<JsValue>>)
    ensures r.Ok? ==> |r.value| <= |history|
  {
    if history == [] then Ok([])
    else
      match CommentTest(history[0])
      case Err(e) => Err(e)
      case Ok(keep) =>
        match FilterEntries(history[1..])
        case Err(e) => Err(e)
        case Ok(rest) =>
          Ok((if keep then [history[0]] else []) + rest)
  }

  /** The filter throws exactly when some entry makes the test throw. */
  lemma {:induction false} FilterEntriesThrows(history: seq<JsValue>)
    ensures FilterEntries(history).Err? <==> exists k | 0 <= k < |history| :: Throws(history[k])
    decreases |history|
  {
    if history != [] {
      FilterEntriesThrows(history[1..]);
      assert forall k | 1 <= k < |history| :: history[k] == history[1..][k - 1];
    }
  }

  /** `filterCommentsFromHistory(history)`: anything but an array gives no comments. */
  function FilterCommentsFromHistory(history: JsValue): (r: Result<seq<JsValue>>)
    ensures !history.Arr? ==> r == Ok([])
    ensures r.Err? ==> history.Arr? && exists k | 0 <= k < |history.elems| :: Throws(history.elems[k])
  {
    if !history.Arr? then Ok([])
    else
      FilterEntriesThrows(history.elems);
      FilterEntries(history.elems)
  }

  /**
   * The comments come in the history's order, each is a comment entry, and
   * every comment entry of the history is kept as often as it occurs.
   */
  lemma {:induction false} FilterEntriesSound(history: seq<JsValue>)
    requires FilterEntries(history).Ok?
    ensures IsSubsequence(FilterEntries(history).value, history)
    ensures forall x | x in FilterEntries(history).value :: IsComment(x)
    ensures forall x | x in history && IsComment(x) :: x in FilterEntries(history).value
    ensures forall x :: multiset(FilterEntries(history).value)[x] == if IsComment(x) then multiset(history)[x] else 0
    decreases |history|
  {
    if history != [] {
      assert FilterEntries(history[1..]).Ok?;
      FilterEntriesSound(history[1..]);
      var rest := FilterEntries(history[1..]).value;
      if IsComment(history[0]) {
        assert FilterEntries(history).value == [history[0]] + rest;
        assert ([history[0]] + rest)[1..] == rest;
      } else {
        assert FilterEntries(history).value == rest;
        SkipFront(rest, history);
      }
      assert history == [history[0]] + history[1..];
    }
  }

  /** A comment entry passes the test. */
  lemma CommentPasses(entry: JsValue)
    requires IsComment(entry)
    ensures CommentTest(entry) == Ok(true)
  {
    assert !Throws(entry);
  }

  /** An entry that passes, in front of entries kept whole, is kept too. */
  lemma KeepFront(history: seq<JsValue>)
    requires history != [] && CommentTest(history[0]) == Ok(true)
    requires FilterEntries(history[1..]) == Ok(history[1..])
    ensures FilterEntries(history) == Ok(history)
  {
    assert [history[0]] + history[1..] == history;
  }

  /** A history made of comment entries only is kept whole. */
  lemma {:induction false} AllCommentsKept(history: seq<JsValue>)
    requires forall k | 0 <= k < |history| :: IsComment(history[k])
    ensures FilterEntries(history) == Ok(history)
    decreases |history|
  {
    if history != [] {
      var tail := history[1..];
      forall k | 0 <= k < |tail|
        ensures IsComment(tail[k])
      {
        assert tail[k] == history[k + 1];
      }
      AllCommentsKept(tail);
      CommentPasses(history[0]);
      KeepFront(history);
    }
  }

  /** Filtering the comments again changes nothing. */
  lemma Idempotent(history: JsValue)
    requires FilterCommentsFromHistory(history).Ok?
    ensures FilterCommentsFromHistory(Arr(FilterCommentsFromHistory(history).value)) == FilterCommentsFromHistory(history)
  {
    var r := FilterCommentsFromHistory(history).value;
    if history.Arr? {
      FilterEntriesSound(history.elems);
      forall k | 0 <= k < |r|
        ensures IsComment(r[k])
      {
        assert r[k] in r;
      }
    }
    AllCommentsKept(r);
  }

  /** A history whose entries are all objects with a string or no comment never throws. */
  lemma NoThrowOnPlainEntries(history: seq<JsValue>)
    requires forall k | 0 <= k < |history| :: history[k].Obj? && ("comment" in history[k].props ==> history[k].props["comment"].Str?)
    ensures FilterEntries(history).Ok?
  {
    FilterEntriesThrows(history);
  }
}
