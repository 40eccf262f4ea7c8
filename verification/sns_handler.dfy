/**
 The notification handler: from a job state-change event it builds the parameters of one
 publish call, a message naming the job's source object and a subject naming its status.
 The publish call itself, logging and the environment lookup of the topic are outside the
 model; the topic arrives as a parameter.
 */
module SnsHandler {
  import opened Wrappers
  import opened Ascii
  import opened TitleCase
  import TitleCaseLaws

  /** The fields of a job state-change event that the handler reads. */
  datatype LifecycleEvent = LifecycleEvent(status: Option<string>, bucket: string, key: string)

  /** The parameters handed to the publish call. */
  datatype PublishParams = PublishParams(message: string, subject: string, topicArn: string)

  const MessagePrefix: string := "Job Source: "
  const SubjectPrefix: string := "Job "

  /** A template literal's rendering of a nullable string: `null` is written as the text "null". */
  function Interpolate(v: Option<string>): (r: string)
    ensures v.Some? ==> r == v.value
    ensures v.None? ==> r == "null"
  {
    match v
    case None => "null"
    case Some(t) => t
  }

  /** The message body: the prefix, the bucket, a slash and the key, verbatim. */
  function FormatMessage(bucket: string, key: string): (m: string)
    ensures |m| == |MessagePrefix| + |bucket| + 1 + |key|
    ensures MessagePrefix <= m
    ensures m[|MessagePrefix|..|MessagePrefix| + |bucket|] == bucket
    ensures m[|MessagePrefix| + |bucket|] == '/'
    ensures m[|MessagePrefix| + |bucket| + 1..] == key
  {
    MessagePrefix + bucket + "/" + key
  }

  /** The subject: the prefix followed by the title-cased status, or by "null" for a null status. */
  function FormatSubject(status: Option<string>): (subj: string)
    ensures SubjectPrefix <= subj
    ensures status.None? ==> subj == "Job null"
    ensures status.Some? ==> |subj| == |SubjectPrefix| + |status.value|
    ensures status.Some? ==> subj[|SubjectPrefix|..] == TitleText(status.value)
  {
    SubjectPrefix + Interpolate(ToTitleCase(status))
  }

  /** The handler's decision: the publish parameters for one event and the configured topic. */
  function Handle(event: LifecycleEvent, topicArn: string): (p: PublishParams)
    ensures p.topicArn == topicArn
    ensures MessagePrefix <= p.message
    ensures SubjectPrefix <= p.subject
  {
    PublishParams(FormatMessage(event.bucket, event.key), FormatSubject(event.status), topicArn)
  }

  /** The first index at or after i holding '/', or |m| when there is none. */
  function FirstSlash(m: string, i: nat): (j: nat)
    requires i <= |m|
    ensures i <= j <= |m|
    ensures forall k :: i <= k < j ==> m[k] != '/'
    ensures j < |m| ==> m[j] == '/'
    decreases |m| - i
  {
    if i == |m| || m[i] == '/' then i else FirstSlash(m, i + 1)
  }

  /** Reads the bucket and key back out of a message, splitting at the first slash after the prefix. */
  function ParseMessage(m: string): (r: Option<(string, string)>)
    ensures r.Some? ==> FormatMessage(r.value.0, r.value.1) == m
    ensures r.Some? ==> '/' !in r.value.0
  {
    if |m| < |MessagePrefix| || m[..|MessagePrefix|] != MessagePrefix then None
    else
      var j := FirstSlash(m, |MessagePrefix|);
      if j == |m| then None
      else Some((m[|MessagePrefix|..j], m[j + 1..]))
  }

  /** For a bucket name without a slash the message determines the bucket and the key. */
  lemma MessageRoundTrip(bucket: string, key: string)
    requires '/' !in bucket
    ensures ParseMessage(FormatMessage(bucket, key)) == Some((bucket, key))
  {
    var m := FormatMessage(bucket, key);
    var n := |MessagePrefix|;
    var j := FirstSlash(m, n);
    forall k | n <= k < n + |bucket|
      ensures m[k] != '/'
    {
      assert m[k] == bucket[k - n];
    }
    assert j == n + |bucket|;
  }

  /** Nothing is escaped, so a slash in the bucket name makes two sources share one message. */
  lemma MessageNotEscaped()
    ensures FormatMessage("a/b", "c") == FormatMessage("a", "b/c")
  {
  }

  /**
   A null status gives the subject "Job null", which no string status produces: title-casing
   never yields a lower-case letter at position 0.
   */
  lemma NullSubjectIsDistinct(status: string)
    ensures FormatSubject(Some(status)) != FormatSubject(None)
  {
    if |status| == 4 {
      TitleCaseLaws.TitleTextMatchesReference(status);
      assert !TitleCaseLaws.WordBefore(status, 0);
      var t := TitleText(status);
      assert t[0] != 'n';
      assert FormatSubject(Some(status))[4] != FormatSubject(None)[4];
    }
  }

  /** The four Batch job statuses, as they appear in subjects. */
  lemma BatchStatusSubjects()
    ensures FormatSubject(Some("SUBMITTED")) == "Job Submitted"
    ensures FormatSubject(Some("STARTING")) == "Job Starting"
    ensures FormatSubject(Some("SUCCEEDED")) == "Job Succeeded"
    ensures FormatSubject(Some("FAILED")) == "Job Failed"
  {
    SubmittedSubject();
    StartingSubject();
    SucceededSubject();
    FailedSubject();
  }

  lemma SubmittedSubject()
    ensures FormatSubject(Some("SUBMITTED")) == "Job Submitted"
  {
    var status, expected := "SUBMITTED", "Submitted";
    assert forall k :: 0 <= k < |status| ==> IsUpperLetter(status[k]);
    assert forall k :: 1 <= k < |status| ==> expected[k] == ToLower(status[k]);
    StatusSubject(status, expected);
  }

  lemma StartingSubject()
    ensures FormatSubject(Some("STARTING")) == "Job Starting"
  {
    var status, expected := "STARTING", "Starting";
    assert forall k :: 0 <= k < |status| ==> IsUpperLetter(status[k]);
    assert forall k :: 1 <= k < |status| ==> expected[k] == ToLower(status[k]);
    StatusSubject(status, expected);
  }

  lemma SucceededSubject()
    ensures FormatSubject(Some("SUCCEEDED")) == "Job Succeeded"
  {
    var status, expected := "SUCCEEDED", "Succeeded";
    assert forall k :: 0 <= k < |status| ==> IsUpperLetter(status[k]);
    assert forall k :: 1 <= k < |status| ==> expected[k] == ToLower(status[k]);
    StatusSubject(status, expected);
  }

  lemma FailedSubject()
    ensures FormatSubject(Some("FAILED")) == "Job Failed"
  {
    var status, expected := "FAILED", "Failed";
    assert forall k :: 0 <= k < |status| ==> IsUpperLetter(status[k]);
    assert forall k :: 1 <= k < |status| ==> expected[k] == ToLower(status[k]);
    StatusSubject(status, expected);
  }

  /** An all-capitals single-word status appears in the subject capitalised. */
  lemma StatusSubject(status: string, expected: string)
    requires 0 < |status| == |expected|
    requires forall k :: 0 <= k < |status| ==> IsUpperLetter(status[k])
    requires expected[0] == status[0]
    requires forall k :: 1 <= k < |status| ==> expected[k] == ToLower(status[k])
    ensures FormatSubject(Some(status)) == SubjectPrefix + expected
  {
    TitleCaseLaws.SingleToken(status);
  }

  /** The handler's output is assembled from the formatted message and subject. */
  lemma HandleFromParts(event: LifecycleEvent, topicArn: string, message: string, subject: string)
    requires FormatMessage(event.bucket, event.key) == message
    requires FormatSubject(event.status) == subject
    ensures Handle(event, topicArn) == PublishParams(message, subject, topicArn)
  {
  }

  /**
   The subject of any string status, position by position: after the prefix, each character
   of the status is transformed as the positional title-casing reference prescribes.
   */
  lemma SubjectMatchesReference(status: string)
    ensures |FormatSubject(Some(status))| == |SubjectPrefix| + |status|
    ensures forall i :: 0 <= i < |status| ==>
              FormatSubject(Some(status))[|SubjectPrefix| + i] == TitleCaseLaws.Expected(status, i)
  {
    TitleCaseLaws.TitleTextMatchesReference(status);
  }

  /** Worked event: a successful job on an uploaded dispatch file. */
  lemma SucceededScenario(topicArn: string)
    ensures Handle(LifecycleEvent(Some("SUCCEEDED"), "drone-photos", "site42/dispatch"), topicArn)
         == PublishParams("Job Source: drone-photos/site42/dispatch", "Job Succeeded", topicArn)
  {
    assert FormatMessage("drone-photos", "site42/dispatch") == "Job Source: drone-photos/site42/dispatch" by {
    }
    assert FormatSubject(Some("SUCCEEDED")) == "Job Succeeded" by {
      SucceededSubject();
    }
    HandleFromParts(LifecycleEvent(Some("SUCCEEDED"), "drone-photos", "site42/dispatch"), topicArn,
      "Job Source: drone-photos/site42/dispatch", "Job Succeeded");
  }

  /** Worked event: a failed job. */
  lemma FailedScenario(topicArn: string)
    ensures Handle(LifecycleEvent(Some("FAILED"), "b", "k"), topicArn)
         == PublishParams("Job Source: b/k", "Job Failed", topicArn)
  {
    FailedSubject();
  }

  /** Worked event: a null status still yields a notification, with the subject "Job null". */
  lemma NullStatusScenario(topicArn: string)
    ensures Handle(LifecycleEvent(None, "b", "k"), topicArn)
         == PublishParams("Job Source: b/k", "Job null", topicArn)
  {
  }
}
