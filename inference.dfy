/**
 * The batch handler `make_inference`: one reply per call, in call order.
 *
 * Each call is a list whose first element is a transcript identifier, which is
 * JSON `null` (None) or a string. A falsy identifier (null or "") gets the reply
 * None and no lookup; any other identifier is normalised and looked up, and the
 * lookup's answer is the reply. A call with no elements makes `call[0]` raise,
 * which ends the whole batch with an error after the lookups already made.
 */
module Inference {
  import opened Wrappers
  import opened TranscriptIds
  import opened SequenceLookup

  type Identifier = Option<string>
  type Call = seq<Identifier>

  /** `call[0]` raised an IndexError at this position of the batch. */
  datatype CallError = EmptyCall(index: nat)

  /** Python's truth test on an identifier: null and the empty string are falsy. */
  predicate IsFalsy(id: Identifier)
  {
    id == None || id.value == ""
  }

  /**
   * The reply for one identifier, given the lookup service: None for a falsy
   * identifier; otherwise the lookup's answer, unaltered, for the part of the
   * identifier before its first period (all of it when it has no period).
   */
  function Reply(id: Identifier, lookup: string -> Option<string>): (r: Option<string>)
    ensures IsFalsy(id) ==> r == None
    ensures !IsFalsy(id) && '.' !in id.value ==> r == lookup(id.value)
  {
    if IsFalsy(id) then None else lookup(Normalize(id.value))
  }

  /**
   * A truthy identifier's reply is the lookup of any period-free prefix that is
   * the whole identifier or ends at its first period: the key is fixed by that
   * description alone.
   */
  lemma ReplyIsLookupOfPrefix(s: string, key: string, lookup: string -> Option<string>)
    requires s != ""
    requires key <= s && '.' !in key && (key == s || s[|key|] == '.')
    ensures Reply(Some(s), lookup) == lookup(key)
  {
    NormalizeUnique(s);
  }

  predicate AllCallsNonEmpty(calls: seq<Call>)
  {
    forall i :: 0 <= i < |calls| ==> |calls[i]| > 0
  }

  /**
   * What the loop produces for a batch, call by call: the replies so far, or the
   * error of the first empty call. A reference definition for MakeInference.
   */
  function Resolve(calls: seq<Call>, lookup: string -> Option<string>): (r: Result<seq<Option<string>>, CallError>)
    ensures r.Success? ==> |r.value| == |calls|
    ensures r.Failure? ==> r.error.index < |calls|
    decreases |calls|
  {
    if calls == [] then Success([])
    else
      var init, call := calls[..|calls| - 1], calls[|calls| - 1];
      match Resolve(init, lookup)
      case Failure(e) => Failure(e)
      case Success(replies) =>
        if |call| == 0 then Failure(EmptyCall(|init|))
        else Success(replies + [Reply(call[0], lookup)])
  }

  /** The normalised identifiers handed to the lookup, in order, before the batch ends or fails. */
  function Sent(calls: seq<Call>, lookup: string -> Option<string>): (keys: seq<string>)
    ensures |keys| <= |calls|
    decreases |calls|
  {
    if calls == [] then []
    else
      var init, call := calls[..|calls| - 1], calls[|calls| - 1];
      if Resolve(init, lookup).Failure? || |call| == 0 || IsFalsy(call[0]) then Sent(init, lookup)
      else Sent(init, lookup) + [Normalize(call[0].value)]
  }

  /**
   * make_inference: walks the calls in order, appending one reply per call.
   * `outcome` is the list of replies or the error that ends the batch, and
   * `sent` the keys handed to `lookup`, one per outbound request.
   */
  method MakeInference(calls: seq<Call>, lookup: string -> Option<string>)
    returns (outcome: Result<seq<Option<string>>, CallError>, sent: seq<string>)
    ensures outcome == Resolve(calls, lookup)
    ensures sent == Sent(calls, lookup)
  {
    var replies: seq<Option<string>> := [];
    sent := [];
    var i := 0;
    while i < |calls|
      invariant 0 <= i <= |calls|
      invariant Resolve(calls[..i], lookup) == Success(replies)
      invariant sent == Sent(calls[..i], lookup)
    {
      assert calls[..i + 1][..i] == calls[..i];
      var call := calls[i];
      if |call| == 0 {
        outcome := Failure(EmptyCall(i));
        PrefixFailureIsFinal(calls, i + 1, lookup);
        assert calls[..|calls|] == calls;
        return;
      }
      var id := call[0];
      if IsFalsy(id) {
        replies := replies + [None];
        i := i + 1;
        continue;
      }
      var key := Normalize(id.value);
      var output := lookup(key);
      sent := sent + [key];
      replies := replies + [output];
      i := i + 1;
    }
    assert calls[..i] == calls;
    outcome := Success(replies);
  }

  /** Once a prefix of the batch fails, the whole batch fails with the same error and sends nothing more. */
  lemma {:induction false} PrefixFailureIsFinal(calls: seq<Call>, n: nat, lookup: string -> Option<string>)
    requires n <= |calls|
    requires Resolve(calls[..n], lookup).Failure?
    ensures Resolve(calls, lookup) == Resolve(calls[..n], lookup)
    ensures Sent(calls, lookup) == Sent(calls[..n], lookup)
    decreases |calls| - n
  {
    if n < |calls| {
      var longer := calls[..n + 1];
      assert longer[..n] == calls[..n];
      assert Resolve(longer, lookup) == Resolve(calls[..n], lookup);
      assert Sent(longer, lookup) == Sent(calls[..n], lookup);
      PrefixFailureIsFinal(calls, n + 1, lookup);
    } else {
      assert calls[..n] == calls;
    }
  }

  /** A batch succeeds exactly when every call has a first element. */
  lemma {:induction false} ResolveSucceedsIffCallsNonEmpty(calls: seq<Call>, lookup: string -> Option<string>)
    ensures Resolve(calls, lookup).Success? <==> AllCallsNonEmpty(calls)
    decreases |calls|
  {
    if calls != [] {
      var init := calls[..|calls| - 1];
      ResolveSucceedsIffCallsNonEmpty(init, lookup);
      assert forall i :: 0 <= i < |init| ==> init[i] == calls[i];
    }
  }

  /**
   * A failing batch fails at its first empty call, and the lookups made are
   * exactly those of the calls before it.
   */
  lemma {:induction false} ResolveFailsAtFirstEmptyCall(calls: seq<Call>, lookup: string -> Option<string>)
    requires Resolve(calls, lookup).Failure?
    ensures var k := Resolve(calls, lookup).error.index;
      k < |calls| && |calls[k]| == 0 && AllCallsNonEmpty(calls[..k]) &&
      Sent(calls, lookup) == Sent(calls[..k], lookup)
    decreases |calls|
  {
    var init := calls[..|calls| - 1];
    if Resolve(init, lookup).Failure? {
      ResolveFailsAtFirstEmptyCall(init, lookup);
      var k := Resolve(init, lookup).error.index;
      assert init[..k] == calls[..k];
    } else {
      ResolveSucceedsIffCallsNonEmpty(init, lookup);
      assert calls[..|calls| - 1] == init;
    }
  }

  /**
   * A successful batch has one reply per call, in call order: the reply at
   * position i depends only on the identifier of call i. A falsy identifier
   * gets None; any other gets the lookup of its normalised form, unaltered.
   */
  lemma {:induction false} ResolveRepliesInOrder(calls: seq<Call>, lookup: string -> Option<string>)
    requires Resolve(calls, lookup).Success?
    ensures |Resolve(calls, lookup).value| == |calls|
    ensures forall i :: 0 <= i < |calls| ==> |calls[i]| > 0 && Resolve(calls, lookup).value[i] == Reply(calls[i][0], lookup)
    ensures forall i :: 0 <= i < |calls| && IsFalsy(calls[i][0]) ==> Resolve(calls, lookup).value[i] == None
    ensures forall i :: 0 <= i < |calls| && !IsFalsy(calls[i][0]) ==>
      Resolve(calls, lookup).value[i] == lookup(Normalize(calls[i][0].value))
    decreases |calls|
  {
    if calls != [] {
      var init, call := calls[..|calls| - 1], calls[|calls| - 1];
      assert Resolve(init, lookup).Success? && |call| > 0;
      var replies := Resolve(calls, lookup).value;
      assert replies == Resolve(init, lookup).value + [Reply(call[0], lookup)];
      ResolveRepliesInOrder(init, lookup);
      forall i | 0 <= i < |calls|
        ensures |calls[i]| > 0 && replies[i] == Reply(calls[i][0], lookup)
      {
        if i < |init| {
          assert init[i] == calls[i];
        }
      }
    }
  }

  /** An identifier is falsy exactly when a batch holding only it makes no lookup. */
  lemma FalsyIffNoLookup(id: Identifier, lookup: string -> Option<string>)
    ensures IsFalsy(id) <==> Sent([[id]], lookup) == []
  {
    var calls: seq<Call> := [[id]];
    assert calls[..|calls| - 1] == [] && calls[|calls| - 1] == [id];
    assert Resolve([], lookup) == Success([]) && Sent([], lookup) == [];
  }

  /**
   * An identifier that is not empty but starts with a period is still looked
   * up, under the empty key: the truth test comes before normalisation.
   */
  lemma LeadingDotIsLookedUpAsEmpty(s: string, lookup: string -> Option<string>)
    requires |s| > 0 && s[0] == '.'
    ensures !IsFalsy(Some(s))
    ensures Reply(Some(s), lookup) == lookup("")
    ensures Sent([[Some(s)]], lookup) == [""]
  {
    NormalizeLeadingDot(s);
    var calls: seq<Call> := [[Some(s)]];
    assert calls[..|calls| - 1] == [] && calls[|calls| - 1] == [Some(s)];
    assert Resolve([], lookup) == Success([]) && Sent([], lookup) == [];
    assert [] + [""] == [""];
  }

  /**
   * In a batch of non-empty calls, a key is looked up exactly when some call
   * carries a truthy identifier that normalises to it.
   */
  lemma SentKeys(calls: seq<Call>, lookup: string -> Option<string>, key: string)
    requires AllCallsNonEmpty(calls)
    ensures key in Sent(calls, lookup) <==>
      exists i :: 0 <= i < |calls| && !IsFalsy(calls[i][0]) && Normalize(calls[i][0].value) == key
  {
    if key in Sent(calls, lookup) {
      SentKeysComeFromCalls(calls, lookup, key);
    }
    if exists i :: 0 <= i < |calls| && !IsFalsy(calls[i][0]) && Normalize(calls[i][0].value) == key {
      var i :| 0 <= i < |calls| && !IsFalsy(calls[i][0]) && Normalize(calls[i][0].value) == key;
      TruthyCallIsSent(calls, lookup, i);
    }
  }

  /** Every key looked up is the normalised form of some truthy identifier of the batch. */
  lemma {:induction false} SentKeysComeFromCalls(calls: seq<Call>, lookup: string -> Option<string>, key: string)
    requires key in Sent(calls, lookup)
    ensures exists i :: 0 <= i < |calls| && |calls[i]| > 0 && !IsFalsy(calls[i][0]) && Normalize(calls[i][0].value) == key
    decreases |calls|
  {
    var init, last := calls[..|calls| - 1], |calls| - 1;
    if key in Sent(init, lookup) {
      SentKeysComeFromCalls(init, lookup, key);
      var i :| 0 <= i < |init| && |init[i]| > 0 && !IsFalsy(init[i][0]) && Normalize(init[i][0].value) == key;
      assert init[i] == calls[i];
    } else {
      assert |calls[last]| > 0 && !IsFalsy(calls[last][0]) && Normalize(calls[last][0].value) == key;
    }
  }

  /** In a batch of non-empty calls, the normalised form of each truthy identifier is looked up. */
  lemma {:induction false} TruthyCallIsSent(calls: seq<Call>, lookup: string -> Option<string>, i: nat)
    requires AllCallsNonEmpty(calls)
    requires i < |calls| && !IsFalsy(calls[i][0])
    ensures Normalize(calls[i][0].value) in Sent(calls, lookup)
    decreases |calls|
  {
    var init, call := calls[..|calls| - 1], calls[|calls| - 1];
    assert AllCallsNonEmpty(init) by {
      forall j | 0 <= j < |init| ensures |init[j]| > 0 {
        assert init[j] == calls[j];
      }
    }
    ResolveSucceedsIffCallsNonEmpty(init, lookup);
    assert Resolve(init, lookup).Success? && |call| > 0;
    if i < |init| {
      assert init[i] == calls[i];
      TruthyCallIsSent(init, lookup, i);
    }
  }

  /**
   * The keys of a batch of non-empty calls, read front to back: nothing for a
   * falsy identifier, the normalised identifier for any other.
   */
  function TruthyKeys(calls: seq<Call>): (keys: seq<string>)
    requires AllCallsNonEmpty(calls)
    ensures |keys| <= |calls|
  {
    if calls == [] then []
    else
      (if IsFalsy(calls[0][0]) then [] else [Normalize(calls[0][0].value)]) + TruthyKeys(calls[1..])
  }

  /** TruthyKeys read back to front: a call added at the end adds its own key, if any, at the end. */
  lemma {:induction false} TruthyKeysSnoc(calls: seq<Call>, call: Call)
    requires AllCallsNonEmpty(calls) && |call| > 0
    ensures AllCallsNonEmpty(calls + [call])
    ensures TruthyKeys(calls + [call]) ==
      TruthyKeys(calls) + (if IsFalsy(call[0]) then [] else [Normalize(call[0].value)])
    decreases |calls|
  {
    var last := if IsFalsy(call[0]) then [] else [Normalize(call[0].value)];
    if calls == [] {
      assert [call][1..] == [];
      assert [call][0] == call;
    } else {
      var longer := calls + [call];
      assert longer[0] == calls[0];
      assert longer[1..] == calls[1..] + [call];
      TruthyKeysSnoc(calls[1..], call);
      var head := if IsFalsy(calls[0][0]) then [] else [Normalize(calls[0][0].value)];
      assert TruthyKeys(longer) == head + (TruthyKeys(calls[1..]) + last);
    }
  }

  /**
   * In a batch of non-empty calls, the lookups made are exactly one per truthy
   * identifier, in call order, and none for a falsy one.
   */
  lemma {:induction false} SentIsTruthyKeys(calls: seq<Call>, lookup: string -> Option<string>)
    requires AllCallsNonEmpty(calls)
    ensures Sent(calls, lookup) == TruthyKeys(calls)
    decreases |calls|
  {
    if calls != [] {
      var init, call := calls[..|calls| - 1], calls[|calls| - 1];
      assert AllCallsNonEmpty(init) by {
        forall j | 0 <= j < |init| ensures |init[j]| > 0 {
          assert init[j] == calls[j];
        }
      }
      SentIsTruthyKeys(init, lookup);
      ResolveSucceedsIffCallsNonEmpty(init, lookup);
      assert Resolve(init, lookup).Success? && |call| > 0;
      var added := if IsFalsy(call[0]) then [] else [Normalize(call[0].value)];
      assert Sent(calls, lookup) == Sent(init, lookup) + added;
      TruthyKeysSnoc(init, call);
      assert init + [call] == calls;
    }
  }

  /** A batch whose identifiers are all falsy makes no lookup at all. */
  lemma {:induction false} FalsyBatchSendsNothing(calls: seq<Call>, lookup: string -> Option<string>)
    requires forall i :: 0 <= i < |calls| ==> |calls[i]| > 0 && IsFalsy(calls[i][0])
    ensures Sent(calls, lookup) == []
    decreases |calls|
  {
    if calls != [] {
      var init := calls[..|calls| - 1];
      assert forall i :: 0 <= i < |init| ==> init[i] == calls[i];
      FalsyBatchSendsNothing(init, lookup);
    }
  }

  /**
   * A batch whose identifiers are all truthy makes one lookup per call, in
   * call order, even when identifiers repeat: nothing is cached.
   */
  lemma {:induction false} TruthyBatchSendsOnePerCall(calls: seq<Call>, lookup: string -> Option<string>)
    requires forall i :: 0 <= i < |calls| ==> |calls[i]| > 0 && !IsFalsy(calls[i][0])
    ensures |Sent(calls, lookup)| == |calls|
    ensures forall i :: 0 <= i < |calls| && !IsFalsy(calls[i][0]) ==> Sent(calls, lookup)[i] == Normalize(calls[i][0].value)
    decreases |calls|
  {
    if calls != [] {
      var init, call := calls[..|calls| - 1], calls[|calls| - 1];
      assert forall i :: 0 <= i < |init| ==> init[i] == calls[i];
      TruthyBatchSendsOnePerCall(init, lookup);
      ResolveSucceedsIffCallsNonEmpty(init, lookup);
      assert Resolve(init, lookup).Success? && |call| > 0 && !IsFalsy(call[0]);
      var keys := Sent(calls, lookup);
      assert keys == Sent(init, lookup) + [Normalize(call[0].value)];
      forall i | 0 <= i < |calls| && !IsFalsy(calls[i][0])
        ensures keys[i] == Normalize(calls[i][0].value)
      {
        if i < |init| {
          assert init[i] == calls[i];
        }
      }
    }
  }

  /**
   * A batch of two versioned identifiers followed by an empty one (such as
   * "ENST00000398417.1", "ENST00000257770.2", ""): the replies are the
   * lookups of the unversioned names, then None, and only those two lookups are made.
   */
  lemma TwoVersionedThenEmpty(name1: string, v1: string, name2: string, v2: string, lookup: string -> Option<string>)
    requires '.' !in name1 && '.' !in name2
    ensures Resolve([[Some(name1 + "." + v1)], [Some(name2 + "." + v2)], [Some("")]], lookup)
      == Success([lookup(name1), lookup(name2), None])
    ensures Sent([[Some(name1 + "." + v1)], [Some(name2 + "." + v2)], [Some("")]], lookup)
      == [name1, name2]
  {
    var a, b := name1 + "." + v1, name2 + "." + v2;
    NormalizeDropsVersion(name1, v1);
    NormalizeDropsVersion(name2, v2);
    assert a != "" && b != "";
    var one: seq<Call> := [[Some(a)]];
    var two: seq<Call> := one + [[Some(b)]];
    var three: seq<Call> := two + [[Some("")]];
    assert one[..|one| - 1] == [] && |one[|one| - 1]| != 0;
    assert Reply(one[|one| - 1][0], lookup) == lookup(name1);
    assert [] + [lookup(name1)] == [lookup(name1)] && [] + [name1] == [name1];
    assert Resolve(one, lookup) == Success([lookup(name1)]);
    assert Sent(one, lookup) == [name1];
    assert two[..|two| - 1] == one && |two[|two| - 1]| != 0;
    assert Reply(two[|two| - 1][0], lookup) == lookup(name2);
    assert [lookup(name1)] + [lookup(name2)] == [lookup(name1), lookup(name2)];
    assert Resolve(two, lookup) == Success([lookup(name1), lookup(name2)]);
    assert Sent(two, lookup) == [name1, name2];
    assert three[..|three| - 1] == two && |three[|three| - 1]| != 0;
    assert IsFalsy(three[|three| - 1][0]);
    assert [lookup(name1), lookup(name2)] + [None] == [lookup(name1), lookup(name2), None];
    assert three == [[Some(a)], [Some(b)], [Some("")]];
  }

  /**
   * With the Ensembl lookup plugged in, a reply is None exactly when the
   * identifier is falsy or the response for its normalised form is not OK, and
   * is otherwise that response's body: the two causes of None are not told apart.
   */
  lemma ReplyThroughEnsembl(id: Identifier, get: HttpRequest -> HttpResponse)
    ensures Reply(id, k => ConvertTranscriptId(get, k)) == None <==>
      IsFalsy(id) || !get(ProteinSequenceRequest(Normalize(id.value))).ok
    ensures Reply(id, k => ConvertTranscriptId(get, k)) != None ==>
      Reply(id, k => ConvertTranscriptId(get, k)).value == get(ProteinSequenceRequest(Normalize(id.value))).text
  {
  }
}
