/**
  The states of a cloud account and the eight columns that store them.
 */
module AccountState {
  import opened Wrappers

  datatype Cloud = AWS | GCP | Azure

  datatype CloudAccess =
    | AwsCloudAccess(externalId: nat, roleName: string)
    | GcpCloudAccess(serviceAccountKeyId: nat)
    | AzureCloudAccess(subscriptionCredentialsId: nat)
  {
    function Cloud(): Cloud {
      if AwsCloudAccess? then AWS else if GcpCloudAccess? then GCP else Azure
    }
  }

  datatype CloudAccountState =
    | Detected
    | Discovered(access: CloudAccess, enabled: bool)
    | Configured(access: CloudAccess, enabled: bool, scan: bool)
    | Degraded(access: CloudAccess, enabled: bool, scan: bool, error: string)
    | Deleted
  {
    function Access(): Option<CloudAccess> {
      if Detected? || Deleted? then None else Some(access)
    }

    function StateName(): string {
      match this
      case Detected => "detected"
      case Discovered(_, _) => "discovered"
      case Configured(_, _, _) => "configured"
      case Degraded(_, _, _, _) => "degraded"
      case Deleted => "deleted"
    }
  }

  datatype Columns = Columns(
    awsExternalId: Option<nat>, awsRoleName: Option<string>, gcpKeyId: Option<nat>, azureCredentialId: Option<nat>,
    state: Option<string>, error: Option<string>, enabled: bool, scan: bool)
  {
    /** How many providers have a credential column that is set. */
    function Providers(): nat {
      (if awsExternalId.Some? || awsRoleName.Some? then 1 else 0)
      + (if gcpKeyId.Some? then 1 else 0) + (if azureCredentialId.Some? then 1 else 0)
    }
  }

  function Encode(s: CloudAccountState): Columns {
    var aws := if s.Access().Some? && s.access.AwsCloudAccess? then Some(s.access) else None;
    var gcp := if s.Access().Some? && s.access.GcpCloudAccess? then Some(s.access.serviceAccountKeyId) else None;
    var azure := if s.Access().Some? &&
        s.access.AzureCloudAccess? then Some(s.access.subscriptionCredentialsId) else None;
    Columns(
      if aws.Some? then Some(aws.value.externalId) else None,
      if aws.Some? then Some(aws.value.roleName) else None,
      gcp, azure,
      Some(s.StateName()),
      if s.Degraded? then Some(s.error) else None,
      s.Access().Some? && s.enabled,
      (s.Configured? || s.Degraded?) && s.scan)
  }

  /** The stored row, as far as the state goes; `isConfigured` is the column from before there were states. */
  class AccountRow {
    const cloud: Cloud
    const isConfigured: bool
    var awsExternalId: Option<nat>
    var awsRoleName: Option<string>
    var gcpKeyId: Option<nat>
    var azureCredentialId: Option<nat>
    var state: Option<string>
    var error: Option<string>
    var enabled: bool
    var scan: bool

    function View(): Columns
      reads this
    {
      Columns(awsExternalId, awsRoleName, gcpKeyId, azureCredentialId, state, error, enabled, scan)
    }

    constructor (cloud: Cloud, s: CloudAccountState)
      ensures this.cloud == cloud && !isConfigured && View() == Encode(s)
    {
      this.cloud, isConfigured := cloud, false;
      new;
      UpdateStateDependentFields(s);
    }

    /** Overwrites all eight columns, whatever was in them. */
    method UpdateStateDependentFields(s: CloudAccountState)
      modifies this
      ensures View() == Encode(s)
    {
      var roleName: Option<string>, externalId: Option<nat> := None, None;
      var gcpServiceKeyId: Option<nat>, azureId: Option<nat> := None, None;
      var enabled', scan' := false, false;
      var error': Option<string> := None;
      if s.Access().Some? {
        match s.access
        case AwsCloudAccess(external, role) => roleName, externalId := Some(role), Some(external);
        case GcpCloudAccess(key) => gcpServiceKeyId := Some(key);
        case AzureCloudAccess(credentials) => azureId := Some(credentials);
      }
      match s {
        case Detected =>
        case Discovered(_, exEnabled) => enabled' := exEnabled;
        case Configured(_, exEnabled, exScan) => enabled', scan' := exEnabled, exScan;
        case Degraded(_, exEnabled, exScan, exError) => enabled', scan', error' := exEnabled, exScan, Some(exError);
        case Deleted =>
      }
      awsExternalId, awsRoleName, gcpKeyId, azureCredentialId := externalId, roleName, gcpServiceKeyId, azureId;
      state, error, enabled, scan := Some(s.StateName()), error', enabled', scan';
    }

    method ToModel() returns (r: Result<CloudAccountState, string>)
      ensures r == Decode(cloud, isConfigured, View())
    {
      r := Decode(cloud, isConfigured, View());
    }

    /** One undisturbed attempt of `update`, as far as the state goes: read, compute, write all columns unless nothing
        changed, and read again what was committed. */
    method Update(f: CloudAccountState -> CloudAccountState) returns (r: Result<CloudAccountState, string>)
      modifies this
      ensures var read := Decode(cloud, isConfigured, old(View()));
              && (read.Err? ==> r == read && View() == old(View()))
              && (read.Ok? && f(read.value) == read.value ==> r == read && View() == old(View()))
              && (read.Ok? && f(read.value) != read.value ==>
                    && View() == Encode(f(read.value))
                    && (r.Ok? <==> f(read.value).Access() == None || f(read.value).access.Cloud() == cloud)
                    && (r.Ok? ==> r.value == f(read.value)))
      ensures old(View()).Providers() <= 1 ==> View().Providers() <= 1
    {
      var read := ToModel();
      if read.Err? {
        return read;
      }
      var updated := f(read.value);
      if updated == read.value {
        return Ok(updated);
      }
      UpdateStateDependentFields(updated);
      OneProvider(updated);
      StateReadsBackExactlyForItsCloud(cloud, isConfigured, updated);
      r := ToModel();
    }
  }

  function DecodeAccess(cloud: Cloud, c: Columns): Result<CloudAccess, string> {
    match cloud
    case AWS =>
      if c.awsRoleName.None? || c.awsExternalId.None? then Err("AWS role name or external_id is not set")
      else Ok(AwsCloudAccess(c.awsExternalId.value, c.awsRoleName.value))
    case GCP =>
      if c.gcpKeyId.None? then Err("GCP service account key id is not set") else Ok(GcpCloudAccess(c.gcpKeyId.value))
    case Azure =>
      if c.azureCredentialId.None? then Err("Azure credential id is not set")
          else Ok(AzureCloudAccess(c.azureCredentialId.value))
  }

  function WithAccess(access: Result<CloudAccess, string>,
                      build: CloudAccess -> CloudAccountState): Result<CloudAccountState, string>
  {
    match access
    case Err(e) => Err(e)
    case Ok(a) => Ok(build(a))
  }

  function Decode(cloud: Cloud, isConfigured: bool, c: Columns): Result<CloudAccountState, string> {
    var access := DecodeAccess(cloud, c);
    if c.state == None then
      if isConfigured then WithAccess(access, a => Configured(a, c.enabled, c.scan))
      else WithAccess(access, a => Discovered(a, c.enabled))
    else if c.state.value == "detected" then Ok(Detected)
    else if c.state.value == "discovered" then WithAccess(access, a => Discovered(a, c.enabled))
    else if c.state.value == "configured" then WithAccess(access, a => Configured(a, c.enabled, c.scan))
    else if c.state.value == "degraded" then
      if c.error.None? then Err("Degraded account must have an error")
      else WithAccess(access, a => Degraded(a, c.enabled, c.scan, c.error.value))
    else if c.state.value == "deleted" then Ok(Deleted)
    else Err("Unknown state")
  }

  /** The columns of the cloud's own credentials are set. */
  predicate HasCredentials(cloud: Cloud, c: Columns) {
    match cloud
    case AWS => c.awsRoleName.Some? && c.awsExternalId.Some?
    case GCP => c.gcpKeyId.Some?
    case Azure => c.azureCredentialId.Some?
  }

  /** Which rows can be read, and as what: detected and deleted ones always, the others with the credentials of their
      cloud, and degraded ones with an error besides. A row from before there were states is configured or discovered by
      the old column. */
  lemma ReadsExactly(cloud: Cloud, isConfigured: bool, c: Columns)
    ensures var r := Decode(cloud, isConfigured, c);
            && (r.Ok? <==>
                  || c.state in {Some("detected"), Some("deleted")}
                  || (HasCredentials(cloud, c) &&
                      (c.state in {None, Some("discovered"), Some("configured")}
                       || (c.state == Some("degraded") && c.error.Some?))))
            && (r.Ok? ==>
                  && (r.value.Detected? <==> c.state == Some("detected"))
                  && (r.value.Deleted? <==> c.state == Some("deleted"))
                  && (r.value.Discovered? <==> c.state == Some("discovered") || (c.state == None && !isConfigured))
                  && (r.value.Configured? <==> c.state == Some("configured") || (c.state == None && isConfigured))
                  && (r.value.Degraded? <==> c.state == Some("degraded"))
                  && (r.value.Access() != None ==> r.value.access.Cloud() == cloud && r.value.enabled == c.enabled)
                  && (r.value.Configured? || r.value.Degraded? ==> r.value.scan == c.scan)
                  && (r.value.Degraded? ==> Some(r.value.error) == c.error))
  {
    NamesDiffer();
  }

  /** Different states have different columns. */
  lemma EncodingIsInjective(s: CloudAccountState, t: CloudAccountState)
    requires Encode(s) == Encode(t)
    ensures s == t
  {
    assert s.StateName() == t.StateName();
    assert s.StateName()[2] == t.StateName()[2] && |s.StateName()| == |t.StateName()|;
  }

  /** A stored state reads back as itself exactly when its access belongs to the cloud of the row; otherwise the row
      can no longer be read at all. */
  lemma StateReadsBackExactlyForItsCloud(cloud: Cloud, isConfigured: bool, s: CloudAccountState)
    ensures Decode(cloud, isConfigured, Encode(s)) == Ok(s) <==> s.Access() == None || s.access.Cloud() == cloud
    ensures Decode(cloud, isConfigured, Encode(s)) != Ok(s) ==> Decode(cloud, isConfigured, Encode(s)).Err?
  {
    assert Encode(s).state == Some(s.StateName());
    NamesDiffer();
  }

  /** The columns hold nothing that the state in them does not use. */
  predicate Tidy(cloud: Cloud, c: Columns) {
    c.state.Some? &&
    var name := c.state.value;
    var hasAccess := name != "detected" && name != "deleted";
    && (cloud != AWS || !hasAccess ==> c.awsExternalId == None && c.awsRoleName == None)
    && (cloud != GCP || !hasAccess ==> c.gcpKeyId == None)
    && (cloud != Azure || !hasAccess ==> c.azureCredentialId == None)
    && (name != "degraded" ==> c.error == None)
    && (!hasAccess ==> !c.enabled)
    && (name != "configured" && name != "degraded" ==> !c.scan)
  }

  /** Reading a row and storing it again gives back the same columns exactly when they were tidy; whatever is stored by
      this code is. */
  lemma ReadingAndStoringIsTheIdentityExactly(cloud: Cloud, isConfigured: bool, c: Columns)
    requires Decode(cloud, isConfigured, c).Ok?
    ensures Encode(Decode(cloud, isConfigured, c).value) == c <==> Tidy(cloud, c)
  {
    var s := Decode(cloud, isConfigured, c).value;
    ReadBack(cloud, isConfigured, c);
    NameTells(s);
    if c.state == None {
      assert Encode(s).state == Some(s.StateName());
    } else {
      TidyForState(cloud, c, s);
    }
  }

  /** What a row that can be read says about its columns. */
  ghost predicate ReadsAs(cloud: Cloud, c: Columns, s: CloudAccountState) {
    && (c.state.Some? ==> s.StateName() == c.state.value)
    && (s.Access() != None ==> DecodeAccess(cloud, c) == Ok(s.access) && s.enabled == c.enabled)
    && (s.Configured? || s.Degraded? ==> s.scan == c.scan)
    && (s.Degraded? ==> c.error == Some(s.error))
  }

  lemma ReadBack(cloud: Cloud, isConfigured: bool, c: Columns)
    requires Decode(cloud, isConfigured, c).Ok?
    ensures ReadsAs(cloud, c, Decode(cloud, isConfigured, c).value)
  {
  }

  lemma NameTells(s: CloudAccountState)
    ensures s.Access() != None <==> s.StateName() != "detected" && s.StateName() != "deleted"
    ensures s.Configured? <==> s.StateName() == "configured"
    ensures s.Degraded? <==> s.StateName() == "degraded"
  {
    NamesDiffer();
  }

  lemma TidyForState(cloud: Cloud, c: Columns, s: CloudAccountState)
    requires ReadsAs(cloud, c, s) && c.state == Some(s.StateName())
    requires s.Access() != None <==> s.StateName() != "detected" && s.StateName() != "deleted"
    requires s.Configured? <==> s.StateName() == "configured"
    requires s.Degraded? <==> s.StateName() == "degraded"
    ensures Encode(s) == c <==> Tidy(cloud, c)
  {
  }

  lemma NamesDiffer()
    ensures |"detected"| == 8 && |"discovered"| == 10 && |"configured"| == 10 && |"degraded"| == 8 && |"deleted"| == 7
    ensures "detected" != "degraded" && "discovered" != "configured"
  {
    assert "detected"[2] != "degraded"[2] && "discovered"[0] != "configured"[0];
  }

  lemma StoredColumnsAreTidy(cloud: Cloud, s: CloudAccountState)
    requires s.Access() == None || s.access.Cloud() == cloud
    ensures Tidy(cloud, Encode(s))
  {
    NamesDiffer();
  }

  /** At most one provider has credentials in the columns of a state, and exactly one if the state has access. */
  lemma OneProvider(s: CloudAccountState)
    ensures Encode(s).Providers() == if s.Access() == None then 0 else 1
  {
  }
}
