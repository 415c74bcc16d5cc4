/** The orders page's status dropdown: which statuses an order can be moved to from the list
    view. The rest of the page is rendering and fetching. */
module OrdersPage {
  import opened Common
  import opened Types

  /** The statuses the page offers, as the strings it sends. */
  const StatusChoices: seq<string> := ["pending", "preparing", "ready", "delivered", "cancelled"]

  /** The page's list is the text of the five statuses, in the order of the status type. */
  lemma StatusChoicesAreStatuses()
    ensures |StatusChoices| == |AllStatuses|
    ensures forall i :: 0 <= i < |StatusChoices| ==> StatusChoices[i] == StatusName(AllStatuses[i])
    ensures forall i, j :: 0 <= i < j < |StatusChoices| ==> StatusChoices[i] != StatusChoices[j]
  {
  }

  /** `s.filter(x => x !== current)`. */
  function Without(s: seq<string>, current: string): (r: seq<string>)
    ensures forall y :: y in r <==> y in s && y != current
    ensures |r| <= |s|
  {
    if s == [] then []
    else (if s[0] != current then [s[0]] else []) + Without(s[1..], current)
  }

  /** Filtering out a value that does not occur keeps the list as it is. */
  lemma {:induction false} WithoutAbsent(s: seq<string>, current: string)
    requires current !in s
    ensures Without(s, current) == s
  {
    if s != [] {
      assert s[0] in s;
      WithoutAbsent(s[1..], current);
      assert s == [s[0]] + s[1..];
    }
  }

  /** Filtering out a value that occurs once, at `k`, removes exactly that entry and keeps the
      order of the others. */
  lemma {:induction false} WithoutOnce(s: seq<string>, current: string, k: nat)
    requires k < |s| && s[k] == current
    requires forall i :: 0 <= i < |s| && i != k ==> s[i] != current
    ensures Without(s, current) == s[..k] + s[k + 1..]
  {
    if k == 0 {
      var rest := s[1..];
      forall y | y in rest ensures y != current {
        var i :| 0 <= i < |rest| && rest[i] == y;
        assert s[i + 1] == y;
      }
      WithoutAbsent(rest, current);
    } else {
      var rest := s[1..];
      forall i | 0 <= i < |rest| && i != k - 1 ensures rest[i] != current {
        assert rest[i] == s[i + 1];
      }
      WithoutOnce(rest, current, k - 1);
      assert s[0] != current;
      assert s[..k] + s[k + 1..] == [s[0]] + (rest[..k - 1] + rest[k..]);
    }
  }

  /** The dropdown of one order: none at all for a delivered or cancelled order (`None`),
      otherwise every status of the list except the current one. */
  function StatusOptions(current: string): (r: Option<seq<string>>)
    ensures r.None? <==> current == "delivered" || current == "cancelled"
    ensures r.Some? ==> current !in r.value
    ensures r.Some? ==> forall y :: y in r.value <==> y in StatusChoices && y != current
  {
    if current != "delivered" && current != "cancelled" then Some(Without(StatusChoices, current))
    else None
  }

  /** An order in one of the three open statuses is offered the four other statuses, in the
      list's order, including going back to an earlier one and straight to delivered. */
  lemma OpenStatusOptions(k: nat)
    requires k < 3
    ensures StatusOptions(StatusChoices[k]) == Some(StatusChoices[..k] + StatusChoices[k + 1..])
    ensures |StatusOptions(StatusChoices[k]).value| == 4
  {
    StatusChoicesAreStatuses();
    WithoutOnce(StatusChoices, StatusChoices[k], k);
  }

  /** A status text outside the list (the page types it as any string) gets all five. */
  lemma UnknownStatusOptions(current: string)
    requires current !in StatusChoices
    ensures StatusOptions(current) == Some(StatusChoices)
  {
    WithoutAbsent(StatusChoices, current);
  }

  /** A status is terminal on the page exactly when it is delivered or cancelled, and every
      option offered is the name of a status, so it is a value the status update accepts. */
  lemma OptionsAreStatuses(s: OrderStatus)
    ensures StatusOptions(StatusName(s)).None? <==> s == Delivered || s == Cancelled
    ensures StatusOptions(StatusName(s)).Some? ==>
      forall y :: y in StatusOptions(StatusName(s)).value ==> ParseStatus(y).Some? && ParseStatus(y) != Some(s)
  {
    StatusesExactlyFive();
  }
}
