/**
 * The propagation check `DnsLookupHelper.isValid`: query the TXT record of
 * `_acme-challenge.<domain>` and compare its first answer, with every double
 * quote removed, to the expected digest. The network lookup is an input:
 * a function from the query to what running the lookup produced.
 */
module DnsLookupHelper {
  import opened Wrappers

  /** RR type code of TXT (RFC 1035, section 3.2.2). */
  const TXT: nat := 16
  /** Class code of IN, the Internet (RFC 1035, section 3.2.4). */
  const IN: nat := 1
  /** The owner label of a DNS-01 record, with its separating dot (RFC 8555, section 8.4). */
  const ChallengePrefix := "_acme-challenge."

  datatype Query = Query(name: string, rrType: nat, rrClass: nat)

  /** dnsjava's `Lookup` result codes. */
  datatype ResultCode = Successful | Unrecoverable | TryAgain | HostNotFound | TypeNotFound

  /**
   * What running a lookup produced: an exception, or a result code with the
   * `rdataToString()` text of each answer record (`None` for a null text).
   */
  datatype LookupOutcome = Threw | Completed(code: ResultCode, answers: seq<Option<string>>)

  /** The query `isValid` issues for `domain`: TXT records of `_acme-challenge.<domain>`, class IN. */
  function ChallengeQuery(domain: string): Query {
    Query(ChallengePrefix + domain, TXT, IN)
  }

  /**
   * `replaceAll("\"", "")`: the text with every double quote removed and
   * every other character kept, as often as it occurs.
   */
  function StripQuotes(s: string): (r: string)
    ensures |r| <= |s|
    ensures '"' !in r
    ensures multiset(r) == multiset(s)['"' := 0]
  {
    if s == [] then []
    else
      assert s == [s[0]] + s[1..];
      (if s[0] == '"' then [] else [s[0]]) + StripQuotes(s[1..])
  }

  /** The first answer's text as `isValid` compares it: quotes are removed only when it holds one. */
  function Unquote(text: string): string {
    if '"' in text then StripQuotes(text) else text
  }

  /**
   * `isValid(domain, digest)`: never fails. An exception, a result other than
   * SUCCESSFUL, a missing first answer (indexing an empty answer array throws
   * and is caught) and a null text all give false; otherwise the first
   * answer's text, unquoted, must equal the digest exactly.
   */
  function IsValid(domain: string, digest: string, resolve: Query -> LookupOutcome): bool {
    match resolve(ChallengeQuery(domain))
    case Threw => false
    case Completed(code, answers) =>
      if code != Successful || |answers| == 0 then false
      else match answers[0]
        case None => false
        case Some(text) => Unquote(text) == digest
  }

  /**
   * `isValid` is true exactly when the lookup of the challenge name
   * completed with SUCCESSFUL and its first answer is a non-null text that
   * equals the digest once every quote is removed.
   */
  lemma IsValidExactly(domain: string, digest: string, resolve: Query -> LookupOutcome)
    ensures IsValid(domain, digest, resolve) <==>
      var outcome := resolve(ChallengeQuery(domain));
      && outcome.Completed? && outcome.code == Successful
      && |outcome.answers| > 0 && outcome.answers[0].Some?
      && StripQuotes(outcome.answers[0].value) == digest
  {
    var outcome := resolve(ChallengeQuery(domain));
    if outcome.Completed? && |outcome.answers| > 0 && outcome.answers[0].Some? {
      UnquoteIsStripQuotes(outcome.answers[0].value);
    }
  }

  /** A character other than a quote survives stripping exactly when the text holds it. */
  lemma StripQuotesKeepsOthers(s: string)
    ensures forall c :: c in StripQuotes(s) <==> c in s && c != '"'
  {
    forall c
      ensures c in StripQuotes(s) <==> c in s && c != '"'
    {
      assert c in StripQuotes(s) <==> c in multiset(StripQuotes(s));
      assert c in s <==> c in multiset(s);
    }
  }

  lemma {:induction false} StripQuotesUnchangedWithoutQuotes(s: string)
    requires '"' !in s
    ensures StripQuotes(s) == s
  {
    if s != [] {
      StripQuotesUnchangedWithoutQuotes(s[1..]);
      assert s == [s[0]] + s[1..];
    }
  }

  /** Testing for a quote first, as `isValid` does, changes nothing. */
  lemma UnquoteIsStripQuotes(text: string)
    ensures Unquote(text) == StripQuotes(text)
  {
    if '"' !in text {
      StripQuotesUnchangedWithoutQuotes(text);
    }
  }

  lemma StripQuotesIdempotent(s: string)
    ensures StripQuotes(StripQuotes(s)) == StripQuotes(s)
  {
    StripQuotesUnchangedWithoutQuotes(StripQuotes(s));
  }

  lemma {:induction false} StripQuotesConcat(a: string, b: string)
    ensures StripQuotes(a + b) == StripQuotes(a) + StripQuotes(b)
  {
    if a != [] {
      assert (a + b)[1..] == a[1..] + b;
      StripQuotesConcat(a[1..], b);
    } else {
      assert a + b == b;
    }
  }

  /** A digest published between quotes, as resolvers present TXT data, matches. */
  lemma QuotedDigestMatches(domain: string, digest: string, resolve: Query -> LookupOutcome, rest: seq<Option<string>>)
    requires '"' !in digest
    requires resolve(ChallengeQuery(domain)) == Completed(Successful, [Some("\"" + digest + "\"")] + rest)
    ensures IsValid(domain, digest, resolve)
  {
    IsValidExactly(domain, digest, resolve);
    StripQuotesConcat("\"" + digest, "\"");
    StripQuotesConcat("\"", digest);
    StripQuotesUnchangedWithoutQuotes(digest);
  }

  /** A digest that holds a quote can never match, whatever the resolver answers. */
  lemma QuotedDigestNeverMatches(domain: string, digest: string, resolve: Query -> LookupOutcome)
    requires '"' in digest
    ensures !IsValid(domain, digest, resolve)
  {
    IsValidExactly(domain, digest, resolve);
  }

  /** Only the first answer record is examined: answers after it do not affect the result. */
  lemma OnlyFirstAnswerCounts(domain: string, digest: string, resolve: Query -> LookupOutcome,
                              resolve': Query -> LookupOutcome, first: Option<string>,
                              rest: seq<Option<string>>, rest': seq<Option<string>>)
    requires resolve(ChallengeQuery(domain)) == Completed(Successful, [first] + rest)
    requires resolve'(ChallengeQuery(domain)) == Completed(Successful, [first] + rest')
    ensures IsValid(domain, digest, resolve) == IsValid(domain, digest, resolve')
  {
  }

  /** Distinct domains are looked up under distinct names. */
  lemma ChallengeQueryInjective(a: string, b: string)
    requires ChallengeQuery(a) == ChallengeQuery(b)
    ensures a == b
  {
    assert a == ChallengeQuery(a).name[|ChallengePrefix|..];
    assert b == ChallengeQuery(b).name[|ChallengePrefix|..];
  }
}
