/**
 * The concept list: the sample concepts of an analysed document, the search
 * that narrows them, and the file name each concept's download gets.
 */
module Concepts {
  import opened Text

  datatype Concept = Concept(
    id: string,
    title: string,
    description: string,
    details: string,
    examples: seq<string>,
    relatedConcepts: seq<string>,
    category: string)

  const SampleConcepts: seq<Concept> := [
    Concept(
      "concept-1",
      "Classical Conditioning",
      "A learning process that occurs through associations between environmental stimuli and naturally occurring stimuli.",
      "Classical conditioning is a learning process first discovered by Ivan Pavlov. It involves creating an association between a neutral stimulus and a stimulus that naturally evokes a response. Through repeated pairings, the neutral stimulus alone can come to elicit the response. This form of learning plays a significant role in both human and animal behavior.",
      ["Pavlov's dogs experiment", "Fear of dentists after painful experiences", "Marketing jingles associated with brands"],
      ["Operant Conditioning", "Behaviorism", "Extinction"],
      "Learning Theories"),
    Concept(
      "concept-2",
      "Operant Conditioning",
      "A method of learning that employs rewards and punishments for behavior.",
      "Operant conditioning, developed by B.F. Skinner, is a method of learning that occurs through rewards and punishments for behavior. Through operant conditioning, an association is made between a behavior and a consequence for that behavior. When a desirable result follows an action, the behavior becomes more likely to be repeated. Conversely, when an undesirable result follows an action, the behavior becomes less likely to be repeated.",
      ["Training pets with treats", "Token economy systems in classrooms", "Positive reinforcement in workplace"],
      ["Classical Conditioning", "Reinforcement Schedules", "Behaviorism"],
      "Learning Theories"),
    Concept(
      "concept-3",
      "Cognitive Dissonance",
      "The mental discomfort that results from holding two conflicting beliefs, values, or attitudes.",
      "Cognitive dissonance, introduced by Leon Festinger, refers to the mental discomfort experienced when a person holds contradictory beliefs or ideas, or is confronted with new information that conflicts with existing beliefs. People tend to seek consistency in their cognitions and will often change their beliefs or behaviors to reduce this discomfort and restore balance.",
      ["Justifying an expensive purchase that doesn't meet expectations", "Smokers who ignore health warnings", "Changing opinions to match group consensus"],
      ["Confirmation Bias", "Self-Perception Theory", "Attitude Change"],
      "Social Psychology"),
    Concept(
      "concept-4",
      "Working Memory",
      "A cognitive system responsible for temporarily holding and manipulating information.",
      "Working memory is a cognitive system that allows for temporary storage and manipulation of information necessary for complex cognitive tasks such as language comprehension, learning, and reasoning. The model of working memory was proposed by Alan Baddeley and Graham Hitch, who argued that it consists of multiple components: the phonological loop, the visuospatial sketchpad, the central executive, and the episodic buffer.",
      ["Remembering a phone number long enough to dial it", "Mental arithmetic", "Following multi-step instructions"],
      ["Short-term Memory", "Long-term Memory", "Attention"],
      "Cognitive Psychology"),
    Concept(
      "concept-5",
      "Maslow's Hierarchy of Needs",
      "A motivational theory in psychology comprising a five-tier model of human needs.",
      "Maslow's Hierarchy of Needs is a motivational theory in psychology proposed by Abraham Maslow. The hierarchy is often depicted as a pyramid, with the most basic needs at the bottom and the need for self-actualization at the top. According to Maslow, people are motivated to fulfill basic needs before moving on to more advanced needs. The five levels are: physiological needs, safety needs, love and belonging needs, esteem needs, and self-actualization.",
      ["Basic survival needs like food and shelter", "Job security and financial stability", "Pursuing creative fulfillment"],
      ["Self-Actualization", "Humanistic Psychology", "Motivation Theory"],
      "Personality Psychology")
  ]

  /** The search predicate: the lowercased query occurs in the lowercased title, description or category. */
  predicate Matches(c: Concept, query: string) {
    var q := Lower(query);
    Contains(Lower(c.title), q) || Contains(Lower(c.description), q) || Contains(Lower(c.category), q)
  }

  /** The concepts the list shows for a search query, in their original order. */
  function FilterConcepts(concepts: seq<Concept>, query: string): (r: seq<Concept>)
    ensures |r| <= |concepts|
    ensures forall c :: c in r <==> c in concepts && Matches(c, query)
  {
    if concepts == [] then []
    else (if Matches(concepts[0], query) then [concepts[0]] else []) + FilterConcepts(concepts[1..], query)
  }

  /** What the list shows for the search box's current text. */
  function Visible(query: string): seq<Concept> {
    FilterConcepts(SampleConcepts, query)
  }

  /** Before anything is typed, the list shows every shipped concept, in order. */
  lemma VisibleBeforeSearch()
    ensures Visible("") == SampleConcepts
  {
    EmptyQueryKeepsAll(SampleConcepts);
  }

  /** Filtering distributes over concatenation, so the result keeps the concepts' order. */
  lemma {:induction false} FilterAppend(a: seq<Concept>, b: seq<Concept>, query: string)
    ensures FilterConcepts(a + b, query) == FilterConcepts(a, query) + FilterConcepts(b, query)
  {
    if a == [] {
      assert a + b == b;
    } else {
      assert (a + b)[1..] == a[1..] + b;
      FilterAppend(a[1..], b, query);
    }
  }

  /** The empty search shows every concept. */
  lemma {:induction false} EmptyQueryKeepsAll(concepts: seq<Concept>)
    ensures FilterConcepts(concepts, "") == concepts
  {
    if concepts != [] {
      ContainsEmpty(Lower(concepts[0].title));
      assert Lower("") == "";
      EmptyQueryKeepsAll(concepts[1..]);
    }
  }

  /** Details, examples and related concepts play no part in the search. */
  lemma UnsearchedFields(c: Concept, details: string, examples: seq<string>, related: seq<string>, query: string)
    ensures Matches(c.(details := details, examples := examples, relatedConcepts := related), query) == Matches(c, query)
  {
  }

  /** The search ignores the case of the query. */
  lemma QueryCaseIgnored(c: Concept, query: string)
    ensures Matches(c, Lower(query)) == Matches(c, query)
  {
    LowerIdempotent(query);
  }

  /** Typing more of the query only narrows the list: a query inside a longer one matches at least the same concepts. */
  lemma RefiningQueryNarrows(concepts: seq<Concept>, shorter: string, longer: string)
    requires Contains(Lower(longer), Lower(shorter))
    ensures forall c :: c in FilterConcepts(concepts, longer) ==> c in FilterConcepts(concepts, shorter)
  {
    forall c | c in FilterConcepts(concepts, longer)
      ensures c in FilterConcepts(concepts, shorter)
    {
      if Contains(Lower(c.title), Lower(longer)) {
        ContainsTrans(Lower(c.title), Lower(longer), Lower(shorter));
      } else if Contains(Lower(c.description), Lower(longer)) {
        ContainsTrans(Lower(c.description), Lower(longer), Lower(shorter));
      } else {
        ContainsTrans(Lower(c.category), Lower(longer), Lower(shorter));
      }
    }
  }

  /** Searching the searched list again changes nothing. */
  lemma {:induction false} FilterIdempotent(concepts: seq<Concept>, query: string)
    ensures FilterConcepts(FilterConcepts(concepts, query), query) == FilterConcepts(concepts, query)
  {
    if concepts != [] {
      FilterIdempotent(concepts[1..], query);
      var head := if Matches(concepts[0], query) then [concepts[0]] else [];
      FilterAppend(head, FilterConcepts(concepts[1..], query), query);
    }
  }

  /** A concept's download file name: its lowercased title with each whitespace run turned into "-". */
  function DownloadFilename(c: Concept): (r: string)
    ensures forall i :: 0 <= i < |r| ==> !IsWhitespace(r[i])
    ensures |r| <= |c.title|
  {
    Slug(c.title)
  }

  /** A two-word title becomes its lowercased words joined by one dash. */
  lemma TwoWordFilename(c: Concept, first: string, gap: string, second: string)
    requires c.title == first + gap + second
    requires forall i :: 0 <= i < |first| ==> !IsWhitespace(first[i])
    requires forall i :: 0 <= i < |second| ==> !IsWhitespace(second[i])
    requires gap != [] && Blank(gap)
    ensures DownloadFilename(c) == Lower(first) + "-" + Lower(second)
  {
    SlugRun(first, gap, second);
    SlugWithoutWhitespace(first);
    SlugWithoutWhitespace(second);
  }
}
