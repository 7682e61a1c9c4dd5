/** Reading a sprint id out of a raw sprint reference: the search for the
    pattern `id=(\d+)` the service applies to each reference of a ticket. The
    search finds the leftmost position where "id=" is followed by a digit and
    takes the longest run of digits from there. */
module SprintRefs {
  import opened Models

  predicate IsDigit(c: char) {
    '0' <= c <= '9'
  }

  /** The pattern matches at position `i`: "id=" and at least one digit. */
  predicate IdAt(s: string, i: nat) {
    i + 4 <= |s| && s[i..i + 3] == "id=" && IsDigit(s[i + 3])
  }

  /** The end of the run of digits that starts at `j`. */
  function DigitsEnd(s: string, j: nat): (k: nat)
    requires j <= |s|
    ensures j <= k <= |s|
    ensures forall p :: j <= p < k ==> IsDigit(s[p])
    ensures k == |s| || !IsDigit(s[k])
    decreases |s| - j
  {
    if j < |s| && IsDigit(s[j]) then DigitsEnd(s, j + 1) else j
  }

  /** The leftmost match at or after `i`. */
  function FirstIdAt(s: string, i: nat): (r: Option<nat>)
    requires i <= |s|
    ensures r.Some? ==> i <= r.value && IdAt(s, r.value)
    ensures r.Some? ==> forall j :: i <= j < r.value ==> !IdAt(s, j)
    ensures r.None? ==> forall j :: i <= j ==> !IdAt(s, j)
    decreases |s| - i
  {
    if i + 4 > |s| then None
    else if IdAt(s, i) then Some(i)
    else FirstIdAt(s, i + 1)
  }

  /** `re.search(r'id=(\d+)', s).group(1)`, or None when there is no match. */
  function ExtractSprintId(s: string): (r: Option<SprintId>)
    ensures r.Some? ==> |r.value| > 0 && forall c :: c in r.value ==> IsDigit(c)
  {
    match FirstIdAt(s, 0)
    case None => None
    case Some(i) =>
      var id := s[i + 3..DigitsEnd(s, i + 3)];
      assert forall c :: c in id ==> IsDigit(c) by {
        forall c | c in id ensures IsDigit(c) {
          var p :| 0 <= p < |id| && id[p] == c;
          assert id[p] == s[i + 3 + p];
        }
      }
      Some(id)
  }

  /** The extracted id is the longest run of digits after the leftmost
      "id=" that is followed by a digit; there is none exactly when no such
      position exists. */
  lemma ExtractSprintIdSpec(s: string)
    ensures ExtractSprintId(s).None? <==> forall i: nat :: !IdAt(s, i)
    ensures ExtractSprintId(s).Some? ==> exists i: nat ::
      && IdAt(s, i)
      && (forall j: nat :: j < i ==> !IdAt(s, j))
      && ExtractSprintId(s).value == s[i + 3..DigitsEnd(s, i + 3)]
  {
    var first := FirstIdAt(s, 0);
    if first.Some? {
      var i := first.value;
      assert IdAt(s, i) && (forall j: nat :: j < i ==> !IdAt(s, j));
    }
  }

  /** A reference of the tracker's shape yields the digits after "id=";
      "ViewId=" does not match because the pattern is case-sensitive. */
  lemma ExtractExample()
    ensures ExtractSprintId("[ViewId=7,id=55]") == Some("55")
  {
    var s := "[ViewId=7,id=55]";
    assert s[10..13] == "id=" && s[13] == '5';
    assert IdAt(s, 10);
    forall j: nat | j < 10 ensures !IdAt(s, j) {
      assert s[j + 1] != 'd' || s[j] != 'i';
    }
    assert DigitsEnd(s, 13) == 15 by {
      assert IsDigit(s[13]) && IsDigit(s[14]) && !IsDigit(s[15]);
    }
    assert s[13..15] == "55";
  }
}
