/** Conversation identifiers. Name-based UUIDs (section 5.5 of RFC 9562) are taken to be collision-free. */
module Conversation {
  import opened Common

  datatype Provider = Postmark | Signalwire | Fbmessenger | Instagram

  datatype Uuid = Random(draw: nat) | Named(name: string)

  function ProviderName(p: Provider): string {
    match p
    case Postmark => "postmark"
    case Signalwire => "signalwire"
    case Fbmessenger => "fbmessenger"
    case Instagram => "instagram"
  }

  /** A thread names its conversation; without one, the conversation is a fresh random id. */
  function DeriveConversationId(p: Provider, thread: Option<string>, draw: nat): Uuid {
    match thread
    case None => Random(draw)
    case Some(t) => Named(ProviderName(p) + ":" + t)
  }

  /** The names that the conversation ids are derived from. */
  lemma ConversationNames(t: string, draw: nat)
    ensures DeriveConversationId(Postmark, Some(t), draw) == Named("postmark:" + t)
    ensures DeriveConversationId(Signalwire, Some(t), draw) == Named("signalwire:" + t)
    ensures DeriveConversationId(Fbmessenger, Some(t), draw) == Named("fbmessenger:" + t)
    ensures DeriveConversationId(Instagram, Some(t), draw) == Named("instagram:" + t)
    ensures forall p :: DeriveConversationId(p, None, draw) == Random(draw)
  {
    assert "postmark" + ":" == "postmark:" && "signalwire" + ":" == "signalwire:";
    assert "fbmessenger" + ":" == "fbmessenger:" && "instagram" + ":" == "instagram:";
  }

  predicate FirstColonAt(s: string, n: nat) {
    n < |s| && s[n] == ':' && forall k :: 0 <= k < n ==> s[k] != ':'
  }

  lemma JoinedColon(a: string, x: string)
    requires ':' !in a
    ensures FirstColonAt(a + ":" + x, |a|)
    ensures (a + ":" + x)[..|a|] == a && (a + ":" + x)[|a| + 1..] == x
  {
    assert (a + ":" + x)[..|a|] == a;
  }

  /** A separator that the first part never contains makes the joined name unambiguous. */
  lemma JoinIsInjective(a: string, x: string, b: string, y: string)
    requires ':' !in a && ':' !in b
    requires a + ":" + x == b + ":" + y
    ensures a == b && x == y
  {
    JoinedColon(a, x);
    JoinedColon(b, y);
  }

  lemma NamesHaveNoColon(p: Provider)
    ensures ':' !in ProviderName(p)
  {
    match p {
      case Postmark =>
      case Signalwire =>
      case Fbmessenger =>
      case Instagram =>
    }
  }

  lemma NamesDiffer(p: Provider, q: Provider)
    ensures ProviderName(p) == ProviderName(q) ==> p == q
  {
    assert ProviderName(Postmark)[0] == 'p' && ProviderName(Signalwire)[0] == 's';
    assert ProviderName(Fbmessenger)[0] == 'f' && ProviderName(Instagram)[0] == 'i';
  }

  /** Two threads share a conversation exactly when provider and thread agree, whatever the thread ids hold. */
  lemma ConversationIdentifiesThread(p: Provider, t: string, q: Provider, u: string, m: nat, n: nat)
    ensures DeriveConversationId(p, Some(t), m) == DeriveConversationId(q, Some(u), n) <==> p == q && t == u
  {
    NamesHaveNoColon(p);
    NamesHaveNoColon(q);
    if ProviderName(p) + ":" + t == ProviderName(q) + ":" + u {
      JoinIsInjective(ProviderName(p), t, ProviderName(q), u);
      NamesDiffer(p, q);
    }
  }
}
