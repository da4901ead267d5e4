/** The success notification's effect on the children of `document.body`:
    `showSuccessMessage` removes the first existing `.success-message`, then
    appends a new message and a new `.success-overlay`. */
module Notification {
  import opened Sequences

  /** A child of `document.body` as far as the notification is concerned. */
  datatype BodyElement = SuccessMessage | SuccessOverlay | PageElement(id: nat)

  /** The body after one `showSuccessMessage` call. */
  function Shown(body: seq<BodyElement>): (r: seq<BodyElement>) {
    RemoveFirst(body, SuccessMessage) + [SuccessMessage, SuccessOverlay]
  }

  /** After a show there is exactly one message more than the removal left:
      one when there was at most one before, so the message stays a singleton. */
  lemma ShownMessageCount(body: seq<BodyElement>)
    ensures Count(Shown(body), SuccessMessage) ==
              if SuccessMessage in body then Count(body, SuccessMessage) else 1
    ensures Count(body, SuccessMessage) <= 1 ==> Count(Shown(body), SuccessMessage) == 1
  {
    RemoveFirstCount(body, SuccessMessage, SuccessMessage);
    CountAppend(RemoveFirst(body, SuccessMessage), [SuccessMessage, SuccessOverlay], SuccessMessage);
    CountZero(body, SuccessMessage);
  }

  /** Overlays are not de-duplicated: each show adds one. */
  lemma ShownOverlayCount(body: seq<BodyElement>)
    ensures Count(Shown(body), SuccessOverlay) == Count(body, SuccessOverlay) + 1
  {
    RemoveFirstCount(body, SuccessMessage, SuccessOverlay);
    CountAppend(RemoveFirst(body, SuccessMessage), [SuccessMessage, SuccessOverlay], SuccessOverlay);
  }

  /** The rest of the page is untouched. */
  lemma ShownKeepsPage(body: seq<BodyElement>, id: nat)
    ensures Count(Shown(body), PageElement(id)) == Count(body, PageElement(id))
  {
    RemoveFirstCount(body, SuccessMessage, PageElement(id));
    CountAppend(RemoveFirst(body, SuccessMessage), [SuccessMessage, SuccessOverlay], PageElement(id));
  }

  /** The children that are neither a success message nor an overlay (the rest
      of the page), in document order. */
  function Page(body: seq<BodyElement>): (r: seq<BodyElement>)
    ensures forall k :: 0 <= k < |r| ==> r[k].PageElement?
    decreases |body|
  {
    if body == [] then []
    else (if body[0].PageElement? then [body[0]] else []) + Page(body[1..])
  }

  lemma {:induction false} PageAppend(a: seq<BodyElement>, b: seq<BodyElement>)
    ensures Page(a + b) == Page(a) + Page(b)
    decreases |a|
  {
    if a == [] {
      assert a + b == b;
    } else {
      assert (a + b)[1..] == a[1..] + b;
      PageAppend(a[1..], b);
    }
  }

  /** An element that is not part of the page can be dropped without changing it. */
  lemma {:induction false} PageSkips(a: seq<BodyElement>, x: BodyElement, b: seq<BodyElement>)
    requires !x.PageElement?
    ensures Page(a + [x] + b) == Page(a + b)
  {
    assert Page([x]) == [] by {
      assert [x][1..] == [];
    }
    PageAppend(a + [x], b);
    PageAppend(a, [x]);
    PageAppend(a, b);
  }

  /** Removing a success message leaves the rest of the page as it was. */
  lemma {:induction false} RemoveFirstKeepsPage(body: seq<BodyElement>)
    ensures Page(RemoveFirst(body, SuccessMessage)) == Page(body)
  {
    var found := FirstIndex(body, SuccessMessage);
    if found.Some? {
      var i := found.value;
      assert body == body[..i] + [body[i]] + body[i + 1..];
      PageSkips(body[..i], body[i], body[i + 1..]);
    }
  }

  /** A show leaves the rest of the page in place: the same elements in the
      same order. */
  lemma {:induction false} ShownKeepsPageOrder(body: seq<BodyElement>)
    ensures Page(Shown(body)) == Page(body)
  {
    RemoveFirstKeepsPage(body);
    PageAppend(RemoveFirst(body, SuccessMessage), [SuccessMessage, SuccessOverlay]);
    assert Page([SuccessMessage, SuccessOverlay]) == [] by {
      assert [SuccessMessage, SuccessOverlay][1..] == [SuccessOverlay];
      assert [SuccessOverlay][1..] == [];
    }
  }

  /** Two shows in quick succession leave one message and two overlays. */
  lemma ShownTwice(body: seq<BodyElement>)
    requires SuccessMessage !in body && SuccessOverlay !in body
    ensures Count(Shown(Shown(body)), SuccessMessage) == 1
    ensures Count(Shown(Shown(body)), SuccessOverlay) == 2
  {
    CountZero(body, SuccessMessage);
    CountZero(body, SuccessOverlay);
    ShownMessageCount(body);
    ShownMessageCount(Shown(body));
    ShownOverlayCount(body);
    ShownOverlayCount(Shown(body));
  }
}
