/**
 * A notification card: the booking status read out of the message text, and the colour
 * classes that status picks.
 */
module NotificationMessage {
  import opened Wrappers
  import opened JsString

  /** The fixed text that precedes the status in a status-change message. */
  const Marker := "status has been updated to "

  /**
   * `/status has been updated to (\w+)/` matches at `i`: the marker starts at `i` and at least
   * one word character follows it.
   */
  ghost predicate MatchAt(m: string, i: int) {
    0 <= i && i + |Marker| < |m| && m[i..i + |Marker|] == Marker && IsWordChar(m[i + |Marker|])
  }

  function MatchHere(m: string, i: nat): (b: bool)
    ensures b <==> MatchAt(m, i)
  {
    i + |Marker| < |m| && m[i..i + |Marker|] == Marker && IsWordChar(m[i + |Marker|])
  }

  /** The leftmost position from `i` on where the pattern matches, as `match` without `g` looks. */
  function FirstMatch(m: string, i: nat): (r: Option<nat>)
    requires i <= |m|
    ensures r.Some? ==> i <= r.value < |m|
    decreases |m| - i
  {
    if MatchHere(m, i) then Some(i)
    else if i == |m| then None
    else FirstMatch(m, i + 1)
  }

  lemma {:induction false} FirstMatchSpec(m: string, i: nat)
    requires i <= |m|
    ensures FirstMatch(m, i).Some? ==>
      MatchAt(m, FirstMatch(m, i).value)
      && forall k :: i <= k < FirstMatch(m, i).value ==> !MatchAt(m, k)
    ensures FirstMatch(m, i).None? ==> forall k :: i <= k ==> !MatchAt(m, k)
    decreases |m| - i
  {
    if !MatchHere(m, i) && i < |m| {
      FirstMatchSpec(m, i + 1);
    }
  }

  /** The end of the run of word characters that starts at `j`: the greedy `\w+`. */
  function WordRun(m: string, j: nat): (n: nat)
    requires j <= |m|
    ensures j <= n <= |m|
    decreases |m| - j
  {
    if j < |m| && IsWordChar(m[j]) then WordRun(m, j + 1) else j
  }

  lemma {:induction false} WordRunSpec(m: string, j: nat)
    requires j <= |m|
    ensures forall k :: j <= k < WordRun(m, j) ==> IsWordChar(m[k])
    ensures WordRun(m, j) == |m| || !IsWordChar(m[WordRun(m, j)])
    decreases |m| - j
  {
    if j < |m| && IsWordChar(m[j]) {
      WordRunSpec(m, j + 1);
    }
  }

  /** `statusMatch ? statusMatch[1] : 'DEFAULT'` */
  function ExtractStatus(m: string): (status: string)
    ensures status != []
  {
    match FirstMatch(m, 0)
    case None => "DEFAULT"
    case Some(i) =>
      FirstMatchSpec(m, 0);
      var j := i + |Marker|;
      assert IsWordChar(m[j]);
      m[j..WordRun(m, j)]
  }

  /** A message without the pattern anywhere shows the status DEFAULT. */
  lemma NoMatchIsDefault(m: string)
    requires forall k :: 0 <= k ==> !MatchAt(m, k)
    ensures ExtractStatus(m) == "DEFAULT"
  {
    if FirstMatch(m, 0).Some? {
      FirstMatchSpec(m, 0);
    }
  }

  /**
   * At the leftmost match, the status is the whole run of word characters after the marker:
   * it is not empty, holds only word characters, and stops at the end or at a non-word character.
   */
  lemma FirstMatchStatus(m: string, i: nat)
    requires MatchAt(m, i)
    requires forall k :: 0 <= k < i ==> !MatchAt(m, k)
    ensures var j := i + |Marker|;
      exists n :: j < n <= |m| && ExtractStatus(m) == m[j..n]
        && (forall k :: j <= k < n ==> IsWordChar(m[k]))
        && (n == |m| || !IsWordChar(m[n]))
  {
    FirstMatchSpec(m, 0);
    var r := FirstMatch(m, 0);
    assert r.Some? && r.value == i;
    var j := i + |Marker|;
    WordRunSpec(m, j);
    assert IsWordChar(m[j]);
    var n := WordRun(m, j);
    assert j < n;
  }

  /** A status word is either DEFAULT or a non-empty run of word characters read from the message. */
  lemma StatusIsWord(m: string)
    ensures var s := ExtractStatus(m);
      s == "DEFAULT" || forall k :: 0 <= k < |s| ==> IsWordChar(s[k])
  {
    if FirstMatch(m, 0).Some? {
      var i := FirstMatch(m, 0).value;
      FirstMatchSpec(m, 0);
      WordRunSpec(m, i + |Marker|);
    }
  }

  // ----- the colour -----

  const Yellow := "bg-yellow-100 text-yellow-800"
  const Green := "bg-green-100 text-green-800"
  const Red := "bg-red-100 text-red-800"
  const Blue := "bg-blue-100 text-blue-800"
  const Gray := "bg-gray-100 text-gray-700"

  /** `getStatusColor` */
  function StatusColor(status: string): (classes: string)
    ensures classes == Yellow || classes == Green || classes == Red || classes == Blue
      || classes == Gray
  {
    match status
    case "PENDING" => Yellow
    case "CONFIRMED" => Green
    case "CANCELLED" => Red
    case "COMPLETED" => Blue
    case _ => Gray
  }

  /** The four named statuses each get their own colour; every other status is gray. */
  lemma ColourIffNamed(status: string)
    ensures StatusColor(status) != Gray <==>
      status == "PENDING" || status == "CONFIRMED" || status == "CANCELLED" || status == "COMPLETED"
    ensures status == "PENDING" <==> StatusColor(status) == Yellow
    ensures status == "CONFIRMED" <==> StatusColor(status) == Green
    ensures status == "CANCELLED" <==> StatusColor(status) == Red
    ensures status == "COMPLETED" <==> StatusColor(status) == Blue
  {
  }

  /** The class string of the card: fixed layout classes around the status colour. */
  function CardClasses(m: string): (classes: string)
    ensures exists c :: (c in {Yellow, Green, Red, Blue, Gray} &&
      classes == "flex items-start gap-4 border border-gray-200 rounded-lg shadow-sm p-4 " + c + " bg-opacity-50")
  {
    var c := StatusColor(ExtractStatus(m));
    assert c in {Yellow, Green, Red, Blue, Gray};
    "flex items-start gap-4 border border-gray-200 rounded-lg shadow-sm p-4 " + c + " bg-opacity-50"
  }

  /**
   * A word right after the leftmost marker, ended by the end of the message or by a non-word
   * character, is the status.
   */
  lemma StatusAfterMarker(before: string, w: string, after: string)
    requires w != [] && forall k :: 0 <= k < |w| ==> IsWordChar(w[k])
    requires after == [] || !IsWordChar(after[0])
    requires forall k :: 0 <= k < |before| ==> !MatchAt(before + Marker + w + after, k)
    ensures ExtractStatus(before + Marker + w + after) == w
  {
    var m := before + Marker + w + after;
    var j := |before| + |Marker|;
    Pieces(before, w, after);
    FirstMatchStatus(m, |before|);
    var n :| j < n <= |m| && ExtractStatus(m) == m[j..n]
      && (forall k :: j <= k < n ==> IsWordChar(m[k]))
      && (n == |m| || !IsWordChar(m[n]));
    assert n == j + |w|;
  }

  /** Where the marker, the word and the rest sit in `before + Marker + w + after`. */
  lemma Pieces(before: string, w: string, after: string)
    requires w != [] && forall k :: 0 <= k < |w| ==> IsWordChar(w[k])
    ensures var m := before + Marker + w + after; var j := |before| + |Marker|;
      |m| == j + |w| + |after|
      && MatchAt(m, |before|)
      && m[j..j + |w|] == w
      && (forall k :: j <= k < j + |w| ==> IsWordChar(m[k]))
      && (after != [] ==> m[j + |w|] == after[0])
  {
    var m := before + Marker + w + after;
    var j := |before| + |Marker|;
    assert m[|before|..j] == Marker;
    assert m[j..j + |w|] == w;
    forall k | j <= k < j + |w| ensures IsWordChar(m[k]) {
      assert m[k] == w[k - j];
    }
  }

  lemma UnpaidIsWord()
    ensures forall k :: 0 <= k < |"CONFIRMED_UNPAID"| ==> IsWordChar("CONFIRMED_UNPAID"[k])
  {
  }

  /**
   * `_` is a word character, so CONFIRMED_UNPAID is read whole; it is none of the named
   * statuses and is shown gray, not green.
   */
  lemma ConfirmedUnpaidIsGray()
    ensures ExtractStatus(Marker + "CONFIRMED_UNPAID") == "CONFIRMED_UNPAID"
    ensures StatusColor(ExtractStatus(Marker + "CONFIRMED_UNPAID")) == Gray
  {
    UnpaidIsWord();
    StatusAfterMarker("", "CONFIRMED_UNPAID", "");
    assert "" + Marker + "CONFIRMED_UNPAID" + "" == Marker + "CONFIRMED_UNPAID";
  }
}
