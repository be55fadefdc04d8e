/** The topic list editor of `SubjectTopicInput`: the text typed so far is
    component state, the topic list belongs to the parent and is replaced
    through a callback. `ContentInputStep` has the same two handlers and uses
    the functions defined here. */
module SubjectTopicInput {
  import opened Common
  import opened Text

  /** `addTopic` accepts the typed text when its trimmed form is non-empty and
      not yet in the list. */
  predicate CanAddTopic(topics: seq<string>, input: string) {
    Trim(input) != "" && Trim(input) !in topics
  }

  /** The topic list `addTopic` hands to the parent: the old list, extended by
      the trimmed input when that is accepted. */
  function TopicsAfterAdd(topics: seq<string>, input: string): (r: seq<string>)
    ensures |topics| <= |r| <= |topics| + 1 && r[..|topics|] == topics
    ensures |r| == |topics| + 1 <==> CanAddTopic(topics, input)
    ensures |r| == |topics| + 1 ==> r[|topics|] == Trim(input) && r[|topics|] != ""
    ensures NoDuplicates(topics) ==> NoDuplicates(r)
  {
    if CanAddTopic(topics, input) then topics + [Trim(input)] else topics
  }

  /** The topic list `removeTopic` hands to the parent. */
  function TopicsAfterRemove(topics: seq<string>, topic: string): (r: seq<string>)
    ensures topic !in r
    ensures forall t :: t != topic ==> (t in r <==> t in topics)
    ensures multiset(r) == multiset(topics)[topic := 0]
  {
    RemoveAllMultiset(topics, topic);
    RemoveAll(topics, topic)
  }

  /** Every listed topic is non-empty and already trimmed. */
  predicate AllTrimmed(topics: seq<string>) {
    forall k :: 0 <= k < |topics| ==> topics[k] != "" && Trim(topics[k]) == topics[k]
  }

  /** Topics entered only through `addTopic` stay free of duplicates and stay
      trimmed and non-empty, whatever text was typed. */
  lemma AddKeepsTopicsClean(topics: seq<string>, input: string)
    requires NoDuplicates(topics) && AllTrimmed(topics)
    ensures NoDuplicates(TopicsAfterAdd(topics, input)) && AllTrimmed(TopicsAfterAdd(topics, input))
  {
    TrimIdempotent(input);
  }

  /** `removeTopic` keeps both properties too. */
  lemma RemoveKeepsTopicsClean(topics: seq<string>, topic: string)
    requires NoDuplicates(topics) && AllTrimmed(topics)
    ensures NoDuplicates(TopicsAfterRemove(topics, topic)) && AllTrimmed(TopicsAfterRemove(topics, topic))
  {
    var r := TopicsAfterRemove(topics, topic);
    assert NoDuplicates(RemoveAll(topics, topic));
    forall k | 0 <= k < |r| ensures r[k] != "" && Trim(r[k]) == r[k] {
      assert r[k] in topics;
    }
  }

  /** Typing only whitespace never adds a topic. */
  lemma WhitespaceNeverAdded(topics: seq<string>, input: string)
    requires AllWhitespace(input)
    ensures TopicsAfterAdd(topics, input) == topics
  {
    TrimEmptyIff(input);
  }

  /** The component's own state: the text in the "new topic" field. */
  class TopicInput {
    var newTopic: string

    constructor ()
      ensures newTopic == ""
    {
      newTopic := "";
    }

    /** The field's `onChange`. */
    method SetNewTopic(text: string)
      modifies this
      ensures newTopic == text
    {
      newTopic := text;
    }

    /** `addTopic`: returns the list handed to `onTopicsChange` (the old list
        when nothing is added) and clears the field only when the topic was
        added. */
    method AddTopic(topics: seq<string>) returns (next: seq<string>)
      modifies this
      ensures next == TopicsAfterAdd(topics, old(newTopic))
      ensures newTopic == if CanAddTopic(topics, old(newTopic)) then "" else old(newTopic)
    {
      var trimmed := Trim(newTopic);
      if trimmed != "" && trimmed !in topics {
        next := topics + [trimmed];
        newTopic := "";
      } else {
        next := topics;
      }
    }
  }
}
