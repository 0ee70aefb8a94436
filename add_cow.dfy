/** The add-cow form: checking its inputs and building the new cow record it submits. */
module AddCow {
  import opened Wrappers
  import opened Seqs
  import opened Text
  import opened CowTypes
  import opened Storage
  import opened CowContext
  import opened CowUtils

  /** The fields that can carry an error message. */
  datatype Field = EarTagField | SexField | PenField | WeightField

  /**
   * The form's inputs. `sex` is None while unselected; `parsedWeight` is what `parseFloat` makes of
   * `weightText`, None standing for NaN.
   */
  datatype FormData = FormData(
    earTag: string,
    sex: Option<Sex>,
    pen: string,
    status: CowStatus,
    weightText: string,
    parsedWeight: Option<int>)

  /** The messages `validateForm` records. */
  const TagRequired := "Ear tag is required"
  const TagExists := "This ear tag already exists"
  const SexRequired := "Sex is required"
  const PenRequired := "Pen is required"
  const WeightNotPositive := "Weight must be a positive number"

  /** A non-empty weight input that is not a positive number. */
  predicate WeightRejected(form: FormData)
  {
    form.weightText != [] && (form.parsedWeight.None? || form.parsedWeight.value <= 0)
  }

  /**
   * The uniqueness lookup, made only for a non-blank tag, finds a cow in the collection it read:
   * some cow's tag equals the trimmed tag ignoring case.
   */
  predicate TagTaken(form: FormData, seen: seq<Cow>)
  {
    Trim(form.earTag) != [] &&
    exists j :: 0 <= j < |seen| && ToLower(seen[j].earTag) == ToLower(Trim(form.earTag))
  }

  /** The lookup's verdict is `getCowByEarTag`'s: a non-blank tag is taken exactly when the lookup finds a cow. */
  lemma TagTakenIsFound(form: FormData, seen: seq<Cow>)
    requires Trim(form.earTag) != []
    ensures TagTaken(form, seen) <==> FindByEarTag(seen, Trim(form.earTag)).Some?
  {
  }

  /**
   * The error record `validateForm` stores, key by key in the order it checks them, given the
   * collection the uniqueness lookup read.
   */
  ghost function FormErrors(form: FormData, seen: seq<Cow>): (errors: map<Field, string>)
  {
    var tag := if Trim(form.earTag) == [] then map[EarTagField := TagRequired]
               else if TagTaken(form, seen) then map[EarTagField := TagExists]
               else map[];
    var sex := if form.sex.None? then tag[SexField := SexRequired] else tag;
    var pen := if Trim(form.pen) == [] then sex[PenField := PenRequired] else sex;
    if WeightRejected(form) then pen[WeightField := WeightNotPositive] else pen
  }

  /** Every check passes: a tag that is not blank and not taken, a sex, a pen, an acceptable weight. */
  predicate FormPasses(form: FormData, taken: bool)
  {
    Trim(form.earTag) != [] && !taken && form.sex.Some? && Trim(form.pen) != [] && !WeightRejected(form)
  }

  /**
   * The ear-tag check of `validateForm`: a tag that is blank once trimmed is required; otherwise the
   * trimmed tag is looked up through `getCowByEarTag`, whose read outcome is `readFails`, and a tag
   * it finds already exists.
   */
  method EarTagError(form: FormData, store: CowStore, readFails: bool) returns (msg: Option<string>)
    ensures var seen := if readFails then [] else store.Listed();
      msg.Some? <==> Trim(form.earTag) == [] || TagTaken(form, seen)
    ensures msg.Some? ==>
      msg.value == if Trim(form.earTag) == [] then TagRequired else TagExists
  {
    var tag := Trim(form.earTag);
    if tag == [] {
      msg := Some(TagRequired);
    } else {
      var existing := store.GetCowByEarTag(tag, readFails);
      msg := if existing.Some? then Some(TagExists) else None;
    }
  }

  /** The checks of `validateForm`, each recording its field's message in `newErrors`. */
  method CollectErrors(form: FormData, store: CowStore, readFails: bool) returns (errors: map<Field, string>)
    ensures errors == FormErrors(form, if readFails then [] else store.Listed())
  {
    var tagError := EarTagError(form, store, readFails);
    errors := if tagError.Some? then map[EarTagField := tagError.value] else map[];
    if form.sex.None? {
      errors := errors[SexField := SexRequired];
    }
    var pen := Trim(form.pen);
    if pen == [] {
      errors := errors[PenField := PenRequired];
    }
    if form.weightText != [] {
      var w := form.parsedWeight;
      if w.None? || w.value <= 0 {
        errors := errors[WeightField := WeightNotPositive];
      }
    }
  }

  /** What each key of the record means, and that the record is empty exactly when the form passes. */
  lemma FormErrorsFields(form: FormData, seen: seq<Cow>)
    ensures var errors := FormErrors(form, seen);
      && (EarTagField in errors <==> Trim(form.earTag) == [] || TagTaken(form, seen))
      && (EarTagField in errors ==>
            errors[EarTagField] == if Trim(form.earTag) == [] then TagRequired else TagExists)
      && (SexField in errors <==> form.sex.None?)
      && (SexField in errors ==> errors[SexField] == SexRequired)
      && (PenField in errors <==> Trim(form.pen) == [])
      && (PenField in errors ==> errors[PenField] == PenRequired)
      && (WeightField in errors <==> WeightRejected(form))
      && (WeightField in errors ==> errors[WeightField] == WeightNotPositive)
      && (errors == map[] <==> FormPasses(form, TagTaken(form, seen)))
  {
    NoErrors(FormErrors(form, seen));
  }

  /**
   * `validateForm`: collects one message per failing field. The uniqueness lookup goes through
   * `getCowByEarTag`, whose read outcome is `readFails`; a failed read finds nothing.
   */
  method ValidateForm(form: FormData, store: CowStore, readFails: bool) returns (errors: map<Field, string>, valid: bool)
    ensures var seen := if readFails then [] else store.Listed();
      && (EarTagField in errors <==> Trim(form.earTag) == [] || TagTaken(form, seen))
      && (EarTagField in errors ==>
            errors[EarTagField] == if Trim(form.earTag) == [] then TagRequired else TagExists)
      && (valid <==> FormPasses(form, TagTaken(form, seen)))
      && errors == FormErrors(form, seen)
    ensures SexField in errors <==> form.sex.None?
    ensures SexField in errors ==> errors[SexField] == SexRequired
    ensures PenField in errors <==> Trim(form.pen) == []
    ensures PenField in errors ==> errors[PenField] == PenRequired
    ensures WeightField in errors <==> WeightRejected(form)
    ensures WeightField in errors ==> errors[WeightField] == WeightNotPositive
    ensures valid <==> errors == map[]
  {
    errors := CollectErrors(form, store, readFails);
    valid := |errors| == 0;
    NoErrors(errors);
    FormErrorsFields(form, if readFails then [] else store.Listed());
  }

  /** An error record has no keys exactly when it is empty, and that is exactly when no field has an error. */
  lemma NoErrors(m: map<Field, string>)
    ensures |m| == 0 <==> m == map[]
    ensures m == map[] <==> EarTagField !in m && SexField !in m && PenField !in m && WeightField !in m
  {
    if m != map[] {
      var k :| k in m;
      assert k in m.Keys;
      assert k == EarTagField || k == SexField || k == PenField || k == WeightField;
    }
  }

  /** The weight the new cow is given: `formData.weight ? parseFloat(formData.weight) : undefined`. */
  function EnteredWeight(form: FormData): (w: Option<int>)
  {
    if form.weightText != [] then form.parsedWeight else None
  }

  /** On a form that passed validation a weight is truthy exactly when one was typed in. */
  lemma EnteredWeightTruthy(form: FormData, taken: bool)
    requires FormPasses(form, taken)
    ensures IsTruthy(EnteredWeight(form)) <==> form.weightText != []
    ensures IsTruthy(EnteredWeight(form)) ==> EnteredWeight(form).value > 0
  {
  }

  /**
   * `cow` is the record `handleSubmit` builds from `form` at time `now` with the generated ids: trimmed
   * tag and pen, a `created` event first, and a `weight_check` event after it only when a truthy
   * weight was entered.
   */
  ghost predicate BuiltFrom(cow: Cow, form: FormData, cowId: string, createdId: string, weightId: string, now: int)
  {
    && form.sex.Some?
    && cow.id == cowId && cow.earTag == Trim(form.earTag) && cow.sex == form.sex.value
    && cow.pen == Trim(form.pen) && cow.status == form.status && cow.weight == EnteredWeight(form)
    && cow.createdAt == now
    && |cow.events| == (if IsTruthy(EnteredWeight(form)) then 2 else 1)
    && cow.events[0] == CowEvent(createdId, Created, now, "Cow added to catalog", None, None, None)
    && (|cow.events| == 2 ==>
          cow.events[1] == CowEvent(weightId, WeightCheck, now, "Initial weight recorded", EnteredWeight(form), None, None))
  }

  /** The `newCow` construction of `handleSubmit`, reached only once validation has passed. */
  method BuildNewCow(form: FormData, cowId: string, createdId: string, weightId: string, now: int) returns (cow: Cow)
    requires form.sex.Some?
    ensures BuiltFrom(cow, form, cowId, createdId, weightId, now)
  {
    var weight := EnteredWeight(form);
    var created := CowEvent(createdId, Created, now, "Cow added to catalog", None, None, None);
    cow := Cow(cowId, Trim(form.earTag), form.sex.value, Trim(form.pen), form.status, weight, [created], now);
    if IsTruthy(weight) {
      var weighed := CowEvent(weightId, WeightCheck, now, "Initial weight recorded", weight, None, None);
      cow := cow.(events := cow.events + [weighed]);
    }
  }

  /** A freshly built cow keeps its tag and pen already trimmed. */
  lemma NewCowTrimmed(cow: Cow, form: FormData, cowId: string, createdId: string, weightId: string, now: int)
    requires BuiltFrom(cow, form, cowId, createdId, weightId, now)
    ensures Trim(cow.earTag) == cow.earTag && Trim(cow.pen) == cow.pen
  {
    TrimIdempotent(form.earTag);
    TrimIdempotent(form.pen);
  }

  /**
   * A freshly built cow's history starts with its addition to the catalogue, was last changed at
   * its creation, and has no weight trend yet.
   */
  lemma NewCowHistory(cow: Cow, form: FormData, cowId: string, createdId: string, weightId: string, now: int)
    requires BuiltFrom(cow, form, cowId, createdId, weightId, now)
    ensures |cow.events| > 0 && EventDescription(cow.events[0]) == "Cow added to catalog"
    ensures LastEventDate(cow) == now
    ensures DailyWeightGain(cow) == None
  {
    EventsDatedAt(cow, now);
    AtMostOneWeighing(cow.events);
  }

  /** A history whose events all carry the date `now` last changed at `now`. */
  lemma EventsDatedAt(cow: Cow, now: int)
    requires |cow.events| > 0
    requires forall i :: 0 <= i < |cow.events| ==> cow.events[i].date == now
    ensures LastEventDate(cow) == now
  {
  }

  /** A history of a `created` event, maybe followed by one more event, holds at most one weighing. */
  lemma AtMostOneWeighing(e: seq<CowEvent>)
    requires 1 <= |e| <= 2 && e[0].kind == Created
    ensures |WeightChecks(e)| <= 1
  {
    assert !IsWeighed(e[0]);
    assert Filter([e[0]], IsWeighed) == [] by {
      assert [e[0]][1..] == [];
    }
    if |e| == 2 {
      assert e == [e[0]] + [e[1]];
      FilterAppend([e[0]], [e[1]], IsWeighed);
    } else {
      assert e == [e[0]];
    }
  }

  /** No two cows of the collection share an ear tag, ignoring case. */
  ghost predicate UniqueEarTags(cows: seq<Cow>)
  {
    forall i, j :: 0 <= i < j < |cows| ==> ToLower(cows[i].earTag) != ToLower(cows[j].earTag)
  }

  /** Adding a cow whose tag the lookup did not find keeps tags unique, at either end of the list. */
  lemma AddKeepsEarTagsUnique(cows: seq<Cow>, cow: Cow)
    requires UniqueEarTags(cows) && FindByEarTag(cows, cow.earTag).None?
    ensures UniqueEarTags(cows + [cow]) && UniqueEarTags([cow] + cows)
  {
    var a, b := cows + [cow], [cow] + cows;
    assert forall k :: 0 <= k < |cows| ==> a[k] == cows[k] && b[k + 1] == cows[k];
  }

  /** What a submission came to. */
  datatype SubmitResult = Ignored | Invalid | Added(cow: Cow) | Failed

  /**
   * The `try` block of `handleSubmit` on a form that passed validation: the cow is built and added
   * through the provider, and the add's failure is caught.
   */
  method SubmitValidForm(provider: CowProvider, form: FormData, cowId: string, createdId: string, weightId: string,
                         now: int, addReadFails: bool, addWriteFails: bool) returns (r: SubmitResult)
    requires form.sex.Some?
    modifies provider, provider.store
    ensures r.Added? || r.Failed?
    ensures r.Failed? <==> addWriteFails
    ensures r.Failed? ==> provider.cows == old(provider.cows) && provider.store.cows == old(provider.store.cows)
    ensures r.Added? ==> BuiltFrom(r.cow, form, cowId, createdId, weightId, now)
    ensures r.Added? ==> provider.cows == [r.cow] + old(provider.cows)
    ensures r.Added? ==>
      provider.store.cows == Some((if addReadFails then [] else old(provider.store.Listed())) + [r.cow])
    ensures provider.filters == old(provider.filters) && provider.store.filters == old(provider.store.filters)
    ensures (r.Added? && UniqueEarTags(old(provider.store.Listed())) &&
             FindByEarTag(old(provider.store.Listed()), Trim(form.earTag)).None?) ==>
      UniqueEarTags(provider.store.Listed())
  {
    var cow := BuildNewCow(form, cowId, createdId, weightId, now);
    ghost var before := provider.store.Listed();
    var outcome := provider.AddCow(cow, addReadFails, addWriteFails);
    if outcome.Pass? {
      r := Added(cow);
      if addReadFails {
        assert provider.store.Listed() == [cow];
      } else if UniqueEarTags(before) && FindByEarTag(before, cow.earTag).None? {
        AddKeepsEarTagsUnique(before, cow);
      }
    } else {
      r := Failed;
    }
  }

  /** The add-cow screen's state: the form, its field errors and the submitting flag. */
  class AddCowScreen {
    var form: FormData
    var errors: map<Field, string>
    var isSubmitting: bool

    constructor (form: FormData)
      ensures this.form == form && errors == map[] && !isSubmitting
    {
      this.form := form;
      errors := map[];
      isSubmitting := false;
    }

    /**
     * `handleSubmit`: ignored while a submission is in progress; otherwise validates, and on a valid
     * form builds the cow and adds it through the provider. The generated ids and the clock reading
     * are parameters, and so are the outcomes of the lookup's read and of the add's read and write.
     */
    method HandleSubmit(provider: CowProvider, cowId: string, createdId: string, weightId: string, now: int,
                        lookupReadFails: bool, addReadFails: bool, addWriteFails: bool) returns (r: SubmitResult)
      modifies this, provider, provider.store
      ensures form == old(form)
      ensures old(isSubmitting) ==>
        r == Ignored && errors == old(errors) && isSubmitting && unchanged(provider, provider.store)
      ensures !old(isSubmitting) ==> !isSubmitting
      ensures var seen := if lookupReadFails then [] else old(provider.store.Listed());
        var passes := FormPasses(form, TagTaken(form, seen));
        && (!old(isSubmitting) ==> errors == FormErrors(form, seen))
        && (!old(isSubmitting) ==> (errors == map[] <==> passes) && (r == Invalid <==> !passes))
        && (!old(isSubmitting) && passes ==> (r == Failed <==> addWriteFails) && (r.Added? <==> !addWriteFails))
      ensures r.Ignored? || r.Invalid? || r.Failed? ==>
        provider.cows == old(provider.cows) && provider.store.cows == old(provider.store.cows)
      ensures r.Added? ==> BuiltFrom(r.cow, form, cowId, createdId, weightId, now)
      ensures r.Added? ==> provider.cows == [r.cow] + old(provider.cows)
      ensures r.Added? ==>
        provider.store.cows == Some((if addReadFails then [] else old(provider.store.Listed())) + [r.cow])
      ensures provider.filters == old(provider.filters) && provider.store.filters == old(provider.store.filters)
      ensures r.Added? && !lookupReadFails && UniqueEarTags(old(provider.store.Listed())) ==>
        UniqueEarTags(provider.store.Listed())
    {
      if isSubmitting {
        return Ignored;
      }
      var newErrors, valid := ValidateForm(form, provider.store, lookupReadFails);
      errors := newErrors;
      if !valid {
        return Invalid;
      }
      isSubmitting := true;
      r := SubmitValidForm(provider, form, cowId, createdId, weightId, now, addReadFails, addWriteFails);
      isSubmitting := false;
    }
  }
}
