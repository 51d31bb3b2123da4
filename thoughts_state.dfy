/**
 * The lists of thoughts the retro board derives from the full thought list: the thoughts of one
 * column topic, and that list split into the thoughts still to discuss and those discussed.
 */
module ThoughtsState {
  import opened Filters

  /** A retrospective thought as the client holds it. */
  datatype Thought = Thought(id: int, message: string, hearts: int, discussed: bool, topic: string)

  /** The topics that have a thought column. */
  type ThoughtTopic = t: string | t == "happy" || t == "confused" || t == "unhappy" witness "happy"

  /** The selector's test for belonging to a topic. */
  function HasTopic(topic: ThoughtTopic): Thought -> bool {
    (t: Thought) => t.topic == topic
  }

  predicate IsDiscussed(t: Thought) {
    t.discussed
  }

  predicate IsUndiscussed(t: Thought) {
    !t.discussed
  }

  /** The thoughts of one topic, in the order of the full list. */
  function ThoughtsByTopic(thoughts: seq<Thought>, topic: ThoughtTopic): (r: seq<Thought>)
    ensures forall t :: t in r <==> t in thoughts && t.topic == topic
    ensures IsSubsequence(r, thoughts)
  {
    FilterIsSubsequence(thoughts, HasTopic(topic));
    Filter(thoughts, HasTopic(topic))
  }

  /** The thoughts of one topic not yet discussed, in order. */
  function ActiveThoughtsByTopic(thoughts: seq<Thought>, topic: ThoughtTopic): (r: seq<Thought>)
    ensures forall t :: t in r <==> t in ThoughtsByTopic(thoughts, topic) && !t.discussed
    ensures IsSubsequence(r, ThoughtsByTopic(thoughts, topic))
  {
    FilterIsSubsequence(ThoughtsByTopic(thoughts, topic), IsUndiscussed);
    Filter(ThoughtsByTopic(thoughts, topic), IsUndiscussed)
  }

  /** The thoughts of one topic already discussed, in order. */
  function DiscussedThoughts(thoughts: seq<Thought>, topic: ThoughtTopic): (r: seq<Thought>)
    ensures forall t :: t in r <==> t in ThoughtsByTopic(thoughts, topic) && t.discussed
    ensures IsSubsequence(r, ThoughtsByTopic(thoughts, topic))
  {
    FilterIsSubsequence(ThoughtsByTopic(thoughts, topic), IsDiscussed);
    Filter(ThoughtsByTopic(thoughts, topic), IsDiscussed)
  }

  /** The topic list keeps every occurrence of a thought of that topic and nothing else. */
  lemma ThoughtsByTopicCounts(thoughts: seq<Thought>, topic: ThoughtTopic, t: Thought)
    ensures multiset(ThoughtsByTopic(thoughts, topic))[t] == if t.topic == topic then multiset(thoughts)[t] else 0
  {
    FilterMultiplicity(thoughts, HasTopic(topic), t);
  }

  /** Selecting a topic from a list already selected for it changes nothing. */
  lemma ThoughtsByTopicIdempotent(thoughts: seq<Thought>, topic: ThoughtTopic)
    ensures ThoughtsByTopic(ThoughtsByTopic(thoughts, topic), topic) == ThoughtsByTopic(thoughts, topic)
  {
    FilterIdempotent(thoughts, HasTopic(topic));
  }

  /**
   * The active and the discussed thoughts partition the topic list: no thought is in both, every
   * thought of the topic is in exactly one, and together they have the topic list's elements.
   */
  lemma ActiveAndDiscussedPartitionTopic(thoughts: seq<Thought>, topic: ThoughtTopic)
    ensures var byTopic := ThoughtsByTopic(thoughts, topic);
            var active := ActiveThoughtsByTopic(thoughts, topic);
            var discussed := DiscussedThoughts(thoughts, topic);
            && (forall t :: !(t in active && t in discussed))
            && (forall t :: t in byTopic ==> (t in active <==> t !in discussed))
            && |active| + |discussed| == |byTopic|
            && multiset(active) + multiset(discussed) == multiset(byTopic)
  {
    FilterPartition(ThoughtsByTopic(thoughts, topic), IsUndiscussed, IsDiscussed);
  }

  /** The active and the discussed thoughts are both in the order of the full thought list. */
  lemma SelectionsKeepListOrder(thoughts: seq<Thought>, topic: ThoughtTopic)
    ensures IsSubsequence(ActiveThoughtsByTopic(thoughts, topic), thoughts)
    ensures IsSubsequence(DiscussedThoughts(thoughts, topic), thoughts)
  {
    var byTopic := ThoughtsByTopic(thoughts, topic);
    SubsequenceTransitive(ActiveThoughtsByTopic(thoughts, topic), byTopic, thoughts);
    SubsequenceTransitive(DiscussedThoughts(thoughts, topic), byTopic, thoughts);
  }
}
