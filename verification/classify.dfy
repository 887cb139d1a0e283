/** The keyword classifiers `work_form` and `work_type`, run on the lower-cased issue body. */
module Classify {
  import opened Wrappers
  import opened Text

  /** The three work forms a job post can be classified as. */
  datatype Form = Remote | Local | Hybrid

  /** The contract types: CLT employment, PJ (contractor), or not informed. */
  datatype Contract = Clt | Pj | Ni

  /** The text each variant stores for a work form. */
  function FormLabel(f: Form): (r: string)
    ensures |r| > 0
  {
    match f
    case Remote => "remote"
    case Local => "local"
    case Hybrid => "hybrid"
  }

  /** The text each variant stores for a contract type. */
  function ContractLabel(c: Contract): (r: string)
    ensures |r| > 0
  {
    match c
    case Clt => "clt"
    case Pj => "pj"
    case Ni => "ni"
  }

  /** The keywords that signal each work form. */
  function FormKeywords(f: Form): seq<string> {
    match f
    case Remote => ["remoto", "remote"]
    case Local => ["presencial", "local"]
    case Hybrid => ["hibrido", "hybrid"]
  }

  /** The order in which the forms are tried: a lower rank wins. */
  function Rank(f: Form): nat {
    match f
    case Remote => 0
    case Local => 1
    case Hybrid => 2
  }

  /** Reference definition: some keyword of `f` occurs at some position of `text`. */
  ghost predicate Mentions(text: string, f: Form) {
    exists w, i :: w in FormKeywords(f) && OccursAt(text, w, i)
  }

  /** Reference definition: `w` occurs at some position of `text`. */
  ghost predicate Says(text: string, w: string) {
    exists i :: OccursAt(text, w, i)
  }

  /** The two-keyword test each branch of `work_form` performs, by substring search. */
  predicate Signals(text: string, f: Form) {
    Contains(text, FormKeywords(f)[0]) || Contains(text, FormKeywords(f)[1])
  }

  lemma SignalsIffMentions(text: string, f: Form)
    ensures Signals(text, f) <==> Mentions(text, f)
  {
    var ws := FormKeywords(f);
    ContainsIffOccurs(text, ws[0]);
    ContainsIffOccurs(text, ws[1]);
    if Mentions(text, f) {
      var w, i :| w in ws && OccursAt(text, w, i);
      assert w == ws[0] || w == ws[1];
    }
  }

  /** `work_form`: tries the remote keywords, then the local ones, then the hybrid ones. */
  function WorkForm(text: string): Option<Form> {
    if Signals(text, Remote) then Some(Remote)
    else if Signals(text, Local) then Some(Local)
    else if Signals(text, Hybrid) then Some(Hybrid)
    else None
  }

  /** The result is the first form, in the order remote, local, hybrid, whose keywords occur
      in the text, and none exactly when no keyword of any form occurs. */
  lemma WorkFormPriority(text: string)
    ensures forall f :: WorkForm(text) == Some(f) <==>
      Mentions(text, f) && forall g :: Rank(g) < Rank(f) ==> !Mentions(text, g)
    ensures WorkForm(text).None? <==> forall f :: !Mentions(text, f)
  {
    SignalsIffMentions(text, Remote);
    SignalsIffMentions(text, Local);
    SignalsIffMentions(text, Hybrid);
  }

  /** Python truthiness of a string constant. */
  predicate Truthy(s: string) { |s| > 0 }

  /** `work_form` as written in the first script, whose second test is
      `"presencial" or ("local" in text)`. */
  function WorkFormAsWritten(text: string): Option<Form> {
    if Signals(text, Remote) then Some(Remote)
    else if Truthy("presencial") || Contains(text, "local") then Some(Local)
    else if Signals(text, Hybrid) then Some(Hybrid)
    else None
  }

  /** The constant makes the second test always true: the first script never yields
      "hybrid" or `None`, only "remote" when a remote keyword occurs and "local" otherwise. */
  lemma AsWrittenNeverHybridOrNone(text: string)
    ensures WorkFormAsWritten(text).Some? && WorkFormAsWritten(text).value != Hybrid
    ensures WorkFormAsWritten(text) == Some(Remote) <==> Mentions(text, Remote)
    ensures WorkFormAsWritten(text) == Some(Local) <==> !Mentions(text, Remote)
  {
    SignalsIffMentions(text, Remote);
  }

  /** The first script agrees with the corrected classifier exactly when the text has a
      remote keyword or a local keyword. */
  lemma AsWrittenAgreesIff(text: string)
    ensures WorkFormAsWritten(text) == WorkForm(text) <==> Mentions(text, Remote) || Mentions(text, Local)
  {
    SignalsIffMentions(text, Remote);
    SignalsIffMentions(text, Local);
    SignalsIffMentions(text, Hybrid);
  }

  /** A hybrid post with no other keyword: the first script stores "local", the corrected
      classifier "hybrid". */
  lemma HybridPostMisclassified(s: string)
    requires s == "vaga hibrido"
    ensures WorkFormAsWritten(s) == Some(Local)
    ensures WorkForm(s) == Some(Hybrid)
  {
    assert s[5..12] == "hibrido";
    ContainsIffOccurs(s, "hibrido");
    assert OccursAt(s, "hibrido", 5);
    MissingCharNotContained(s, "remoto", 'm');
    MissingCharNotContained(s, "remote", 'm');
    MissingCharNotContained(s, "presencial", 'p');
    MissingCharNotContained(s, "local", 'l');
  }

  /** A post with no keyword at all: the first script stores "local", the corrected
      classifier nothing. */
  lemma EmptyPostMisclassified()
    ensures WorkFormAsWritten("") == Some(Local)
    ensures WorkForm("") == None
  {
  }

  /** `work_type`: "clt" if it occurs, else "pj" if it occurs, else "ni". */
  function WorkType(text: string): Contract {
    if Contains(text, "clt") then Clt
    else if Contains(text, "pj") then Pj
    else Ni
  }

  /** The result is total over the three contract types; "clt" wins over "pj", and "ni"
      comes out exactly when neither occurs. */
  lemma WorkTypePriority(text: string)
    ensures WorkType(text) == Clt <==> Says(text, "clt")
    ensures WorkType(text) == Pj <==> !Says(text, "clt") && Says(text, "pj")
    ensures WorkType(text) == Ni <==> !Says(text, "clt") && !Says(text, "pj")
  {
    ContainsIffOccurs(text, "clt");
    ContainsIffOccurs(text, "pj");
  }
}
