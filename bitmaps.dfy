/** The calls the watch face makes to the platform, in order, and the
    single-owner discipline for the sprite bitmap: a bitmap is created only
    when no other is live, is destroyed only while live, and is installed on
    the layer only while live. */
module Bitmaps {
  import opened Catalog
  import opened Theme

  /** A GBitmap created from a resource; serial tells apart two bitmaps made
      from the same resource. */
  datatype Bitmap = Bitmap(serial: nat, resource: Resource)

  /** One platform call made by the watch face. */
  datatype Call =
    | SetText(text: string)                 // text_layer_set_text
    | SetCompositing(op: CompOp)            // bitmap_layer_set_compositing_mode
    | SetTextColor(color: Color)            // text_layer_set_text_color
    | SetBackground(color: Color)           // window_set_background_color
    | DestroyBitmap(bitmap: Bitmap)         // gbitmap_destroy
    | CreateBitmap(bitmap: Bitmap)          // gbitmap_create_with_resource
    | SetLayerBitmap(bitmap: Bitmap)        // bitmap_layer_set_bitmap

  predicate IsThemeCall(c: Call) {
    c.SetCompositing? || c.SetTextColor? || c.SetBackground?
  }

  /** Every bitmap ever created by the calls. */
  ghost function Created(calls: seq<Call>): set<Bitmap>
    decreases |calls|
  {
    if calls == [] then {}
    else
      var prior := Created(calls[..|calls| - 1]);
      match calls[|calls| - 1]
      case CreateBitmap(b) => prior + {b}
      case _ => prior
  }

  /** The bitmaps created and not yet destroyed after the calls. */
  ghost function Live(calls: seq<Call>): set<Bitmap>
    decreases |calls|
  {
    if calls == [] then {}
    else
      var prior := Live(calls[..|calls| - 1]);
      match calls[|calls| - 1]
      case CreateBitmap(b) => prior + {b}
      case DestroyBitmap(b) => prior - {b}
      case _ => prior
  }

  /** Each call respects single ownership given the calls before it. */
  ghost predicate OwnershipOk(calls: seq<Call>)
    decreases |calls|
  {
    calls == [] ||
    (var prior := calls[..|calls| - 1];
     OwnershipOk(prior) &&
     match calls[|calls| - 1]
     case CreateBitmap(b) => Live(prior) == {} && b !in Created(prior)
     case DestroyBitmap(b) => b in Live(prior)
     case SetLayerBitmap(b) => b in Live(prior)
     case _ => true)
  }

  lemma {:induction false} LiveWereCreated(calls: seq<Call>)
    ensures Live(calls) <= Created(calls)
    decreases |calls|
  {
    if calls != [] {
      LiveWereCreated(calls[..|calls| - 1]);
    }
  }

  /** Under the discipline at most one bitmap is live. */
  lemma {:induction false} AtMostOneLive(calls: seq<Call>)
    requires OwnershipOk(calls)
    ensures |Live(calls)| <= 1
    decreases |calls|
  {
    if calls != [] {
      var prior := calls[..|calls| - 1];
      AtMostOneLive(prior);
      match calls[|calls| - 1]
      case CreateBitmap(b) =>
        assert Live(calls) == {b};
      case DestroyBitmap(b) =>
        assert Live(calls) <= Live(prior);
        SubsetSize(Live(calls), Live(prior));
      case _ =>
    }
  }

  lemma SubsetSize<T>(a: set<T>, b: set<T>)
    requires a <= b
    ensures |a| <= |b|
  {
    assert b == a + (b - a);
  }

  /** The discipline held at every earlier point of the run, so at every
      point at most one bitmap was live. */
  lemma {:induction false} OwnershipOkPrefix(calls: seq<Call>, k: nat)
    requires OwnershipOk(calls) && k <= |calls|
    ensures OwnershipOk(calls[..k])
    ensures |Live(calls[..k])| <= 1
    decreases |calls|
  {
    if k < |calls| {
      var prior := calls[..|calls| - 1];
      assert prior[..k] == calls[..k];
      OwnershipOkPrefix(prior, k);
    } else {
      assert calls[..k] == calls;
      AtMostOneLive(calls);
    }
  }

  /** Calls that do not touch bitmaps leave the live and created sets alone
      and keep the discipline. */
  lemma {:induction false} AppendOther(calls: seq<Call>, c: Call)
    requires !c.CreateBitmap? && !c.DestroyBitmap? && !c.SetLayerBitmap?
    ensures Live(calls + [c]) == Live(calls)
    ensures Created(calls + [c]) == Created(calls)
    ensures OwnershipOk(calls + [c]) == OwnershipOk(calls)
  {
    assert (calls + [c])[..|calls|] == calls;
  }

  /** Theme calls leave the live and created sets alone and keep the
      discipline. */
  lemma {:induction false} AppendThemeCalls(calls: seq<Call>, cs: seq<Call>)
    requires forall i :: 0 <= i < |cs| ==> IsThemeCall(cs[i])
    ensures Live(calls + cs) == Live(calls)
    ensures Created(calls + cs) == Created(calls)
    ensures OwnershipOk(calls + cs) == OwnershipOk(calls)
    decreases |cs|
  {
    if cs != [] {
      var init := cs[..|cs| - 1];
      AppendThemeCalls(calls, init);
      assert calls + cs == (calls + init) + [cs[|cs| - 1]];
      AppendOther(calls + init, cs[|cs| - 1]);
    } else {
      assert calls + cs == calls;
    }
  }

  /** Destroying a live bitmap removes it and keeps the discipline. */
  lemma {:induction false} AppendDestroy(calls: seq<Call>, b: Bitmap)
    requires OwnershipOk(calls) && b in Live(calls)
    ensures Live(calls + [DestroyBitmap(b)]) == Live(calls) - {b}
    ensures Created(calls + [DestroyBitmap(b)]) == Created(calls)
    ensures OwnershipOk(calls + [DestroyBitmap(b)])
  {
    assert (calls + [DestroyBitmap(b)])[..|calls|] == calls;
  }

  /** Creating a bitmap while none is live keeps the discipline. */
  lemma {:induction false} AppendCreate(calls: seq<Call>, b: Bitmap)
    requires OwnershipOk(calls) && Live(calls) == {} && b !in Created(calls)
    ensures Live(calls + [CreateBitmap(b)]) == {b}
    ensures Created(calls + [CreateBitmap(b)]) == Created(calls) + {b}
    ensures OwnershipOk(calls + [CreateBitmap(b)])
  {
    assert (calls + [CreateBitmap(b)])[..|calls|] == calls;
  }

  /** Installing a live bitmap on the layer keeps the discipline. */
  lemma {:induction false} AppendInstall(calls: seq<Call>, b: Bitmap)
    requires OwnershipOk(calls) && b in Live(calls)
    ensures Live(calls + [SetLayerBitmap(b)]) == Live(calls)
    ensures Created(calls + [SetLayerBitmap(b)]) == Created(calls)
    ensures OwnershipOk(calls + [SetLayerBitmap(b)])
  {
    assert (calls + [SetLayerBitmap(b)])[..|calls|] == calls;
  }
}
