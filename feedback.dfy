/** The payload validators of the feedback service: an attendee's feedback submission and a
    moderator's decision on it. */
module Feedback {
  import opened Wrappers
  import opened Text
  import opened JsonValue
  import opened Validation

  const SchemaMessage: string := "Payload JSON invalide: un objet est requis."

  /** The statuses a moderator may set. */
  const AllowedStatuses: set<string> := {"pending", "approved", "rejected"}

  // ---------------------------------------------------------------- _validate_submission_payload

  /** The rating is required: an int (a bool is one) from 1 to 5, stored as given. */
  function RatingOutcome(data: Json): (o: Outcome)
    ensures o.Store? ==> o.key == "rating" && IsInt(o.value) && 1 <= IntValue(o.value) <= 5
  {
    var rating := Get(data, "rating");
    if IsInt(rating) && 1 <= IntValue(rating) <= 5 then Store("rating", rating)
    else Reject("rating", "Note comprise entre 1 et 5 requise.")
  }

  /** The comment is `None` or a string, always stored; a string with text is stripped. */
  function CommentOutcome(data: Json): (o: Outcome)
    ensures o.Store? ==> o.key == "comment" && (o.value.Null? || o.value.Str?)
  {
    var comment := Get(data, "comment");
    if comment.Null? || comment.Str? then Store("comment", StrippedOrKept(comment))
    else Reject("comment", "Commentaire invalide.")
  }

  /** A present email is `None` or a non-blank string, stored stripped and lower-cased. */
  function EmailOutcome(data: Json): (o: Outcome)
    ensures o.Store? ==> o.key == "participant_email"
  {
    if !Has(data, "email") then Skip
    else
      var email := Get(data, "email");
      if email.Null? then Store("participant_email", Null)
      else if email.Str? && Strip(email.s) != "" then Store("participant_email", Str(Lower(Strip(email.s))))
      else Reject("email", "Email invalide.")
  }

  /** A present name is `None` or a non-blank string, stored stripped. */
  function NameOutcome(data: Json): (o: Outcome)
    ensures o.Store? ==> o.key == "participant_name"
  {
    if !Has(data, "name") then Skip
    else
      var name := Get(data, "name");
      if name.Null? then Store("participant_name", Null)
      else if name.Str? && Strip(name.s) != "" then Store("participant_name", Str(Strip(name.s)))
      else Reject("name", "Nom invalide.")
  }

  /** A present sentiment is `None` or a string, stored stripped (a blank one becomes ""). */
  function SentimentOutcome(data: Json): (o: Outcome)
    ensures o.Store? ==> o.key == "sentiment"
  {
    if !Has(data, "sentiment") then Skip
    else
      var sentiment := Get(data, "sentiment");
      if sentiment.Null? then Store("sentiment", Null)
      else if sentiment.Str? then Store("sentiment", Str(Strip(sentiment.s)))
      else Reject("sentiment", "Champ sentiment invalide.")
  }

  /** Metadata is always stored: `None` when missing or `None`, a dict as given; anything else
      is an error. */
  function MetadataOutcome(data: Json): (o: Outcome)
    ensures o.Store? ==> o.key == "metadata" && (o.value.Null? || o.value.Obj?)
  {
    var metadata := Get(data, "metadata");
    if metadata.Null? then Store("metadata", Null)
    else if metadata.Obj? then Store("metadata", metadata)
    else Reject("metadata", "M\U{e9}tadonn\U{e9}es invalides.")
  }

  /** The checks of `_validate_submission_payload`, in its order. */
  function SubmissionOutcomes(data: Json): seq<Outcome> {
    [RatingOutcome(data), CommentOutcome(data), EmailOutcome(data), NameOutcome(data), SentimentOutcome(data),
     MetadataOutcome(data)]
  }

  /** The checks in their order. */
  lemma SubmissionOrder(data: Json)
    ensures var outcomes := SubmissionOutcomes(data);
      && outcomes[0] == RatingOutcome(data) && outcomes[1] == CommentOutcome(data)
      && outcomes[2] == EmailOutcome(data) && outcomes[3] == NameOutcome(data)
      && outcomes[4] == SentimentOutcome(data) && outcomes[5] == MetadataOutcome(data)
  {
  }

  /** The clean keys, one per check. */
  const SubmissionKeys: seq<string> := ["rating", "comment", "participant_email", "participant_name", "sentiment", "metadata"]

  lemma SubmissionKeyed(data: Json)
    ensures KeyedBy(SubmissionOutcomes(data), SubmissionKeys) && Distinct(SubmissionKeys)
  {
    var keys := SubmissionKeys;
    forall i, j | 0 <= i < j < |keys| ensures keys[i] != keys[j] {
      assert |keys[i]| != |keys[j]|;
    }
    var outcomes := SubmissionOutcomes(data);
    forall i | 0 <= i < |outcomes| && outcomes[i].Store? ensures outcomes[i].key == keys[i] {
      if i == 0 { assert outcomes[i] == RatingOutcome(data); }
      else if i == 1 { assert outcomes[i] == CommentOutcome(data); }
      else if i == 2 { assert outcomes[i] == EmailOutcome(data); }
      else if i == 3 { assert outcomes[i] == NameOutcome(data); }
      else if i == 4 { assert outcomes[i] == SentimentOutcome(data); }
      else { assert outcomes[i] == MetadataOutcome(data); }
    }
  }

  /** `_validate_submission_payload(data)`. */
  function ValidateSubmission(data: Json): Result<Json, Errors> {
    Validated(data, SubmissionOutcomes(data), SchemaMessage)
  }

  /** An accepted submission has a rating from 1 to 5, a comment that is `None` or a string, and
      metadata that is `None` or a dict. */
  lemma SubmissionMeaning(data: Json)
    ensures ValidateSubmission(data).Ok? ==>
      var clean := ValidateSubmission(data).value.fields;
      && IsInt(Lookup(clean, "rating")) && 1 <= IntValue(Lookup(clean, "rating")) <= 5
      && (Lookup(clean, "comment").Null? || Lookup(clean, "comment").Str?)
      && (Lookup(clean, "metadata").Null? || Lookup(clean, "metadata").Obj?)
  {
    if ValidateSubmission(data).Ok? {
      SubmissionRating(data);
      SubmissionComment(data);
      SubmissionMetadata(data);
    }
  }

  lemma SubmissionRating(data: Json)
    requires ValidateSubmission(data).Ok?
    ensures var clean := ValidateSubmission(data).value.fields;
      IsInt(Lookup(clean, "rating")) && 1 <= IntValue(Lookup(clean, "rating")) <= 5
  {
    assert SubmissionOutcomes(data)[0] == RatingOutcome(data);
    SubmissionStores(data, 0);
  }

  lemma SubmissionComment(data: Json)
    requires ValidateSubmission(data).Ok?
    ensures var clean := ValidateSubmission(data).value.fields;
      Lookup(clean, "comment").Null? || Lookup(clean, "comment").Str?
  {
    assert SubmissionOutcomes(data)[1] == CommentOutcome(data);
    SubmissionStores(data, 1);
  }

  lemma SubmissionMetadata(data: Json)
    requires ValidateSubmission(data).Ok?
    ensures var clean := ValidateSubmission(data).value.fields;
      Lookup(clean, "metadata").Null? || Lookup(clean, "metadata").Obj?
  {
    assert SubmissionOutcomes(data)[5] == MetadataOutcome(data);
    SubmissionStores(data, 5);
  }

  /** A rating outside 1..5 (or not an int) is always reported, whatever else is wrong. */
  lemma SubmissionRatingReported(data: Json)
    ensures data.Obj? && !(IsInt(Get(data, "rating")) && 1 <= IntValue(Get(data, "rating")) <= 5) ==>
      ValidateSubmission(data).Err? && ("rating", ["Note comprise entre 1 et 5 requise."]) in ValidateSubmission(data).error
  {
    assert SubmissionOutcomes(data)[0] == RatingOutcome(data);
  }

  /** In an accepted submission no check rejected, and each stored value is under its key. */
  lemma SubmissionStores(data: Json, i: nat)
    requires ValidateSubmission(data).Ok? && i < |SubmissionKeys|
    ensures !SubmissionOutcomes(data)[i].Reject?
    ensures SubmissionOutcomes(data)[i].Store? ==>
      Lookup(ValidateSubmission(data).value.fields, SubmissionKeys[i]) == SubmissionOutcomes(data)[i].value
  {
    SubmissionKeyed(data);
    ValidatedKeeps(data, SubmissionOutcomes(data), SchemaMessage, SubmissionKeys, i);
  }

  /** A present email that is accepted is stored stripped and lower-cased. */
  lemma SubmissionEmail(data: Json)
    ensures ValidateSubmission(data).Ok? && Has(data, "email") && Get(data, "email").Str? ==>
      Lookup(ValidateSubmission(data).value.fields, "participant_email") == Str(Lower(Strip(Get(data, "email").s)))
  {
    if ValidateSubmission(data).Ok? && Has(data, "email") && Get(data, "email").Str? {
      var o := EmailOutcome(data);
      assert !o.Reject? && (o.Store? ==> Lookup(ValidateSubmission(data).value.fields, "participant_email") == o.value) by {
        SubmissionStores(data, 2);
        assert SubmissionOutcomes(data)[2] == o;
      }
      assert o.value == Str(Lower(Strip(Get(data, "email").s)));
    }
  }

  /** A present name that is accepted is stored stripped. */
  lemma SubmissionName(data: Json)
    ensures ValidateSubmission(data).Ok? && Has(data, "name") && Get(data, "name").Str? ==>
      Lookup(ValidateSubmission(data).value.fields, "participant_name") == Str(Strip(Get(data, "name").s))
  {
    if ValidateSubmission(data).Ok? && Has(data, "name") && Get(data, "name").Str? {
      var o := NameOutcome(data);
      assert !o.Reject? && (o.Store? ==> Lookup(ValidateSubmission(data).value.fields, "participant_name") == o.value) by {
        SubmissionStores(data, 3);
        assert SubmissionOutcomes(data)[3] == o;
      }
      assert o.value == Str(Strip(Get(data, "name").s));
    }
  }

  // ---------------------------------------------------------------- _validate_moderation_payload

  /** Why a moderation decision is refused: `FeedbackValidationError` with its errors, or the
      `TypeError` Python raises when it looks up an unhashable status (a list or a dict) in the
      set of statuses. */
  datatype ModerationError = Invalid(errors: Errors) | Unhashable

  /** `hash(v)` raises for a list or a dict. */
  predicate Hashable(v: Json) {
    !v.Arr? && !v.Obj?
  }

  /** `_validate_moderation_payload(data)`: the status and the cleaned moderator name. A decision
      is accepted exactly when the status is pending, approved or rejected and the moderator is
      `None` or a non-blank string; it then carries that status and the moderator stripped. An
      unhashable status raises before the moderator is looked at; otherwise both errors are
      reported together. */
  function ValidateModeration(data: Json): (r: Result<(string, Option<string>), ModerationError>)
    ensures !data.Obj? ==> r == Err(Invalid([("_schema", [SchemaMessage])]))
    ensures data.Obj? ==> (r == Err(Unhashable) <==> !Hashable(Get(data, "status")))
    ensures data.Obj? ==>
      (r.Ok? <==>
       (Get(data, "status").Str? && Get(data, "status").s in AllowedStatuses
        && (Get(data, "moderator").Null? || (Get(data, "moderator").Str? && Strip(Get(data, "moderator").s) != ""))))
    ensures r.Ok? ==>
      && r.value.0 in AllowedStatuses
      && (Get(data, "moderator").Null? <==> r.value.1.None?)
      && (r.value.1.Some? ==> r.value.1.value == Strip(Get(data, "moderator").s) && r.value.1.value != "")
    ensures data.Obj? && r.Err? && r.error.Invalid? ==>
      && ((StatusError in r.error.errors) <==>
          !(Get(data, "status").Str? && Get(data, "status").s in AllowedStatuses))
      && ((ModeratorError in r.error.errors) <==>
          !(Get(data, "moderator").Null? || (Get(data, "moderator").Str? && Strip(Get(data, "moderator").s) != "")))
  {
    if !data.Obj? then Err(Invalid([("_schema", [SchemaMessage])]))
    else
      var status := Get(data, "status");
      var moderator := Get(data, "moderator");
      if !Hashable(status) then Err(Unhashable)
      else
        var badStatus := !(status.Str? && status.s in AllowedStatuses);
        var badModerator := !moderator.Null? && (!moderator.Str? || Strip(moderator.s) == "");
        if badStatus || badModerator then Err(Invalid(ModerationErrors(badStatus, badModerator)))
        else Ok((status.s, if moderator.Str? then Some(Strip(moderator.s)) else None))
  }

  const StatusError := ("status", ["Statut de mod\U{e9}ration invalide."])
  const ModeratorError := ("moderator", ["Nom du mod\U{e9}rateur invalide."])

  /** The errors of a refused decision: the status error, then the moderator error, each
      exactly when its check failed. */
  function ModerationErrors(badStatus: bool, badModerator: bool): (e: Errors)
    ensures |e| <= 2
    ensures StatusError in e <==> badStatus
    ensures ModeratorError in e <==> badModerator
  {
    assert StatusError.0[0] != ModeratorError.0[0];
    (if badStatus then [StatusError] else []) + (if badModerator then [ModeratorError] else [])
  }
}
