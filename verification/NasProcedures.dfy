/** The procedure flags, the 5GMM state and the security context of one nas_context, over every
    sequence of the handlers that write them.

    What a handler learns from elsewhere (decoding, table lookups, the AUSF, encoding, sending)
    comes with the event, so a run ranges over every way each of these can turn out. */
module NasProcedures {
  import opened Contexts

  datatype MmState = Deregistered | CommonProcedureInitiated | Registered

  /** sc_type of a security context. */
  datatype ScType = NotAvailable | FullNative | OtherType

  /** The flags of the identification and NAS transport procedures are left out: they are tested beside
      these two, but no handler ever raises them. */
  datatype Nc = Nc(
    authentication: bool,            // is_common_procedure_for_..._running
    securityMode: bool,
    security: Option<ScType>,        // security_ctx, by its type
    mm: MmState,
    available: bool,                 // ctx_avaliability_ind
    imsi: bool,                      // is_imsi_present
    vectors: bool,                   // is_auth_vectors_present
    gutiIdentity: bool,              // is_5g_guti_present
    bySuci: bool,                    // to_be_register_by_new_suci
    guti: bool)                      // guti.has_value()

  const FRESH := Nc(false, false, None, Deregistered, false, false, false, false, false, false)

  datatype Identity = Suci(hasImsi: bool, gnbKnown: bool, plmnMatches: bool) | Guti | OtherIdentity
  datatype RegistrationType = Initial | Mobility | Periodic | Emergency | UnknownType
  datatype FailureCause = SynchFailure | NgksiInUse | OtherCause

  datatype Registration = Registration(decodes: bool, ueFound: bool, ngapFound: bool, identity: Identity,
                                       hasType: bool, hasKsi: bool, regType: RegistrationType, vectorsOk: bool)

  datatype Complete = Complete(ueFound: bool, isPlain: bool, rerouted: bool, rerouteOk: bool, gutiOk: bool,
                               encodes: bool, contextRequested: bool, kamfFound: bool)

  datatype Service = Service(ueFound: bool, decodes: bool, restOk: bool, rejectSent: bool)

  /** The NAS context that the GUTI of a Service Request leads to. */
  datatype Earlier = NoContext | Unsecured | Secured(scType: ScType)

  datatype Event =
    | RegistrationRequest(registration: Registration)
    | IdentityResponse(decodes: bool, vectorsOk: bool)
    | AuthenticationResponse(ok: bool)
    | AuthenticationFailure(readable: bool, cause: FailureCause, vectorsAgain: bool)
    | SecurityModeComplete(complete: Complete)
    | SecurityModeReject
    | UplinkServiceRequest(uplink: Service)
    | InitialServiceRequest(initial: Service, earlier: Earlier)
    | Deregistration(completes: bool)
    | Restore(keysDecode: bool, freshType: ScType)

  // ------------------------------------------------------- the steps as functions

  /** check_nas_common_procedure_on_going */
  predicate Ongoing(s: Nc) {
    s.authentication || s.securityMode
  }

  /** start_authentication_procedure; its flag is up even if the request then fails to encode. */
  function StartAuthentication(s: Nc): Nc {
    if Ongoing(s) then s else s.(authentication := true)
  }

  function OnAuthVectors(s: Nc): Nc {
    StartAuthentication(s.(vectors := true, security := if s.security.None? then Some(NotAvailable) else s.security))
  }

  function RunRegistration(s: Nc, vectorsOk: bool): Nc {
    if !s.available then s
    else if s.imsi then if s.vectors || vectorsOk then OnAuthVectors(s) else s
    else if s.gutiIdentity then s.(vectors := false)
    else s
  }

  /** start_security_mode_control_procedure */
  function StartSecurityMode(s: Nc): Nc {
    if s.security == Some(NotAvailable)
    then s.(securityMode := true, security := Some(FullNative))
    else s.(securityMode := true)
  }

  /** Whether it sends a Security Mode Command: encode_nas_message_protected refuses header type 3 for a
      context that is not new. */
  predicate SendsCommand(s: Nc, encodes: bool) {
    s.security == Some(NotAvailable) && encodes
  }

  function Unavailable(s: Nc): Nc {
    if s.security.Some? then s.(security := Some(NotAvailable)) else s
  }

  function OnIdentity(s: Nc, identity: Identity): Nc {
    match identity
    case Suci(hasImsi, gnbKnown, plmnMatches) =>
      if hasImsi && gnbKnown && plmnMatches then s.(imsi := true, mm := CommonProcedureInitiated) else s
    case Guti => s.(gutiIdentity := true, bySuci := true)
    case OtherIdentity => s
  }

  predicate IdentityRefused(identity: Identity) {
    identity.Suci? && identity.hasImsi && !(identity.gnbKnown && identity.plmnMatches)
  }

  /** A Registration Request that is read as far as its identity. */
  predicate Admitted(e: Registration) {
    e.decodes && e.ueFound && e.ngapFound && !IdentityRefused(e.identity)
  }

  function OnRegistrationRequest(s: Nc, e: Registration): Nc
  {
    if !Admitted(e) then s
    else
      var s1 := Unavailable(OnIdentity(s, e.identity));
      if !e.hasType || !e.hasKsi then s1
      else
        var s2 := s1.(available := true);
        match e.regType
        case Initial => RunRegistration(s2, e.vectorsOk)
        case Mobility => if s2.security.None? then RunRegistration(s2, e.vectorsOk) else s2
        case _ => s2
  }

  function OnIdentityResponse(s: Nc, decodes: bool, vectorsOk: bool): Nc {
    if !decodes then s
    else
      var s1 := s.(available := true, imsi := true);
      if s.bySuci then RunRegistration(s1.(mm := CommonProcedureInitiated), vectorsOk) else s1
  }

  function OnAuthenticationResponse(s: Nc, ok: bool): Nc {
    var s1 := s.(authentication := false);
    if ok then StartSecurityMode(s1) else s1
  }

  function OnAuthenticationFailure(s: Nc, decodes: bool, cause: FailureCause, vectorsOk: bool): Nc {
    var s1 := s.(authentication := false);
    if !decodes then s1
    else match cause
      case SynchFailure => if vectorsOk then OnAuthVectors(s1) else s1
      case NgksiInUse => if s1.security.None? then s1 else StartAuthentication(s1)
      case OtherCause => s1
  }

  /** A Security Mode Complete that gets as far as clearing the flag. */
  predicate Clears(e: Complete) {
    e.ueFound && !e.isPlain && !e.rerouted && e.rerouteOk && e.gutiOk
  }

  function OnSecurityModeComplete(s: Nc, e: Complete): Nc
  {
    if !Clears(e) then s
    else if s.security.None? || !e.encodes || (e.contextRequested && !e.kamfFound)
    then s.(guti := true, securityMode := false)
    else s.(guti := true, securityMode := false, mm := Registered)
  }

  function OnServiceReject(s: Nc, sent: bool): Nc {
    if sent then s.(mm := Deregistered) else s
  }

  predicate Served(s: Nc, e: Service) {
    e.ueFound && s.security.Some? && e.decodes && e.restOk
  }

  /** Service Request in an Uplink NAS Transport: accepting it leaves the 5GMM state alone. */
  function OnUplinkServiceRequest(s: Nc, e: Service): Nc
  {
    if Served(s, e) then s else OnServiceReject(s, e.rejectSent)
  }

  /** Whether the GUTI of a Service Request is followed: the UE is known and has none yet. */
  predicate Adopts(s: Nc, e: Service) {
    e.ueFound && e.decodes && !s.guti
  }

  /** Service Request in an Initial UE Message: a context without a GUTI first takes over the security
      context that the GUTI of the message leads to; optional::value() throws if there is none. */
  function OnInitialServiceRequest(s: Nc, e: Service, earlier: Earlier): Nc
  {
    if Adopts(s, e) && earlier.Unsecured? then s
    else
      var s1 := if Adopts(s, e) && earlier.Secured? then s.(security := Some(earlier.scType)) else s;
      if Served(s1, e) then s1.(mm := Registered) else OnServiceReject(s1, e.rejectSent)
  }

  function OnRestore(s: Nc, keysDecode: bool, freshType: ScType): Nc {
    if keysDecode then s.(security := Some(freshType), vectors := true, mm := Registered) else s
  }

  function Step(s: Nc, e: Event): Nc {
    match e
    case RegistrationRequest(registration) => OnRegistrationRequest(s, registration)
    case IdentityResponse(decodes, vectorsOk) => OnIdentityResponse(s, decodes, vectorsOk)
    case AuthenticationResponse(ok) => OnAuthenticationResponse(s, ok)
    case AuthenticationFailure(readable, cause, vectorsOk) => OnAuthenticationFailure(s, readable, cause, vectorsOk)
    case SecurityModeComplete(complete) => OnSecurityModeComplete(s, complete)
    case SecurityModeReject => s
    case UplinkServiceRequest(service) => OnUplinkServiceRequest(s, service)
    case InitialServiceRequest(service, earlier) => OnInitialServiceRequest(s, service, earlier)
    case Deregistration(completes) => if completes then s.(mm := Deregistered) else s
    case Restore(keysDecode, freshType) => OnRestore(s, keysDecode, freshType)
  }

  function Run(s: Nc, es: seq<Event>): Nc
    decreases |es|
  {
    if es == [] then s else Run(Step(s, es[0]), es[1..])
  }

  // ------------------------------------------------------- the steps field by field

  /** A Registration Request that is read past its identity. */
  predicate IsRead(r: Registration) {
    && r.decodes && r.ueFound && r.ngapFound
    && (r.identity.Suci? && r.identity.hasImsi ==> r.identity.gnbKnown && r.identity.plmnMatches)
  }

  /** The event brings a SUPI: a SUCI of this PLMN, or an Identity Response. */
  predicate BringsImsi(e: Event) {
    match e
    case RegistrationRequest(r) => IsRead(r) && r.identity.Suci? && r.identity.hasImsi
    case IdentityResponse(decodes, _) => decodes
    case _ => false
  }

  /** The registration procedure is run: always for an initial registration, for one on mobility if there is no security
      context, and after the identity of a UE that came with a GUTI. */
  predicate RunsRegistration(s: Nc, e: Event) {
    match e
    case RegistrationRequest(r) =>
      IsRead(r) && r.hasType && r.hasKsi && (r.regType.Initial? || (r.regType.Mobility? && s.security.None?))
    case IdentityResponse(decodes, _) => decodes && s.bySuci
    case _ => false
  }

  /** There are authentication vectors to go on with: those held or new ones in a registration, new ones after a failure
      of synchronisation. */
  predicate HasVectors(s: Nc, e: Event) {
    match e
    case RegistrationRequest(r) => RunsRegistration(s, e) && (s.imsi || BringsImsi(e)) && (s.vectors || r.vectorsOk)
    case IdentityResponse(_, vectorsOk) => RunsRegistration(s, e) && (s.vectors || vectorsOk)
    case AuthenticationFailure(readable, cause, vectorsAgain) => readable && cause.SynchFailure? && vectorsAgain
    case _ => false
  }

  predicate EndsAuthentication(e: Event) {
    e.AuthenticationResponse? || e.AuthenticationFailure?
  }

  /** Authentication starts where there are vectors, or after a clash of key set identifiers in a security context; but
      not while a common procedure runs other than the one that the event ends. */
  predicate StartsAuthentication(s: Nc, e: Event) {
    && !s.securityMode && (s.authentication ==> EndsAuthentication(e))
    && (HasVectors(s, e) ||
        (e.AuthenticationFailure? && e.readable && e.cause.NgksiInUse? && s.security.Some?))
  }

  /** A Security Mode Complete that gets as far as the flag. */
  predicate EndsSecurityMode(e: Event) {
    && e.SecurityModeComplete? && e.complete.ueFound && !e.complete.isPlain && !e.complete.rerouted
    && e.complete.rerouteOk && e.complete.gutiOk
  }

  /** The security context that a Service Request in an Initial UE Message is served with: the one that its GUTI leads
      to, if it is followed, or the one held. */
  function ServiceContext(s: Nc, v: Service, earlier: Earlier): Option<ScType> {
    if v.ueFound && v.decodes && !s.guti && earlier.Secured? then Some(earlier.scType) else s.security
  }

  /** It throws, and has no effect, where the GUTI is followed to a context without security context. */
  predicate ServiceThrows(s: Nc, v: Service, earlier: Earlier) {
    v.ueFound && v.decodes && !s.guti && earlier.Unsecured?
  }

  predicate IsServed(held: Option<ScType>, v: Service) {
    v.ueFound && v.decodes && v.restOk && held.Some?
  }

  /** What registers a UE. */
  predicate Registers(s: Nc, e: Event) {
    match e
    case SecurityModeComplete(c) =>
      EndsSecurityMode(e) && c.encodes && (c.contextRequested ==> c.kamfFound) && s.security.Some?
    case InitialServiceRequest(v, earlier) =>
      !ServiceThrows(s, v, earlier) && IsServed(ServiceContext(s, v, earlier), v)
    case Restore(keysDecode, _) => keysDecode
    case _ => false
  }

  /** What de-registers it: a completed de-registration, or a Service Reject that was sent. */
  predicate Deregisters(s: Nc, e: Event) {
    match e
    case UplinkServiceRequest(v) => !IsServed(s.security, v) && v.rejectSent
    case InitialServiceRequest(v, earlier) =>
      !ServiceThrows(s, v, earlier) && !IsServed(ServiceContext(s, v, earlier), v) && v.rejectSent
    case Deregistration(completes) => completes
    case _ => false
  }

  /** What makes a common procedure its state. */
  predicate Initiates(s: Nc, e: Event) {
    match e
    case RegistrationRequest(_) => BringsImsi(e)
    case IdentityResponse(decodes, _) => decodes && s.bySuci
    case _ => false
  }

  function MmAfter(s: Nc, e: Event): MmState {
    if Registers(s, e) then Registered
    else if Deregisters(s, e) then Deregistered
    else if Initiates(s, e) then CommonProcedureInitiated
    else s.mm
  }

  /** The security context: a Registration Request that is read makes one unavailable, vectors make an unavailable one
      where there is none, a successful authentication makes an unavailable one full; a Service Request may take over
      another, and a restore sets it. */
  function SecurityAfter(s: Nc, e: Event): Option<ScType> {
    match e
    case RegistrationRequest(r) =>
      if (s.security.Some? && IsRead(r)) || HasVectors(s, e) then Some(NotAvailable) else s.security
    case IdentityResponse(_, _) => if s.security.None? && HasVectors(s, e) then Some(NotAvailable) else s.security
    case AuthenticationFailure(_, _, _) =>
      if s.security.None? && HasVectors(s, e) then Some(NotAvailable) else s.security
    case AuthenticationResponse(ok) => if ok && s.security == Some(NotAvailable) then Some(FullNative) else s.security
    case InitialServiceRequest(v, earlier) => ServiceContext(s, v, earlier)
    case Restore(keysDecode, freshType) => if keysDecode then Some(freshType) else s.security
    case _ => s.security
  }

  /** A request that came with a GUTI, or has been read with one, and for which no SUPI is known. */
  predicate AsksForIdentity(s: Nc, e: Event) {
    && e.RegistrationRequest? && RunsRegistration(s, e) && !s.imsi && !BringsImsi(e)
    && (s.gutiIdentity || e.registration.identity.Guti?)
  }

  predicate TakesGuti(e: Event) {
    e.RegistrationRequest? && IsRead(e.registration) && e.registration.identity.Guti?
  }

  predicate GivesType(e: Event) {
    e.RegistrationRequest? && IsRead(e.registration) && e.registration.hasType && e.registration.hasKsi
  }

  /** Each field after a step, by what sets it and what takes it back.  Of the indications none is taken back, but that
      of vectors where the identity must be asked for. */
  function ByField(s: Nc, e: Event): Nc {
    Nc(authentication := StartsAuthentication(s, e) || (s.authentication && !EndsAuthentication(e)),
       securityMode := (e.AuthenticationResponse? && e.ok) || (s.securityMode && !EndsSecurityMode(e)),
       security := SecurityAfter(s, e),
       mm := MmAfter(s, e),
       available := s.available || (e.IdentityResponse? && e.decodes) || GivesType(e),
       imsi := s.imsi || BringsImsi(e),
       vectors := HasVectors(s, e) || (e.Restore? && e.keysDecode) || (s.vectors && !AsksForIdentity(s, e)),
       gutiIdentity := s.gutiIdentity || TakesGuti(e),
       bySuci := s.bySuci || TakesGuti(e),
       guti := s.guti || EndsSecurityMode(e))
  }

  /** Past the identity, before type and key set identifier are looked at. */
  function Identified(s: Nc, r: Registration): Nc {
    var e := RegistrationRequest(r);
    s.(security := if s.security.Some? then Some(NotAvailable) else None, imsi := s.imsi || BringsImsi(e),
       mm := if BringsImsi(e) then CommonProcedureInitiated else s.mm,
       gutiIdentity := s.gutiIdentity || r.identity.Guti?, bySuci := s.bySuci || r.identity.Guti?)
  }

  lemma RequestIdentified(s: Nc, r: Registration)
    requires IsRead(r)
    ensures Admitted(r) && Unavailable(OnIdentity(s, r.identity)) == Identified(s, r)
  {
    match r.identity
    case Suci(hasImsi, gnbKnown, plmnMatches) => assert r.identity == Suci(hasImsi, gnbKnown, plmnMatches);
    case Guti => assert r.identity == Guti;
    case OtherIdentity => assert r.identity == OtherIdentity;
  }

  /** The registration procedure on a context with its availability indication. */
  lemma RunByField(s: Nc, vectorsOk: bool)
    requires s.available
    ensures var t := RunRegistration(s, vectorsOk); var found := s.imsi && (s.vectors || vectorsOk);
            t == s.(authentication := s.authentication || (found && !s.securityMode),
                    security := if found && s.security.None? then Some(NotAvailable) else s.security,
                    vectors := found || (s.vectors && (s.imsi || !s.gutiIdentity)))
  {
  }

  lemma UnreadByField(s: Nc, r: Registration)
    requires !IsRead(r)
    ensures OnRegistrationRequest(s, r) == s && ByField(s, RegistrationRequest(r)) == s
  {
  }

  lemma ReadOnlyByField(s: Nc, r: Registration)
    requires IsRead(r) && !RunsRegistration(s, RegistrationRequest(r))
    ensures ByField(s, RegistrationRequest(r)) == Identified(s, r).(available := s.available || (r.hasType && r.hasKsi))
  {
  }

  lemma RunRequestByField(s: Nc, r: Registration)
    requires RunsRegistration(s, RegistrationRequest(r))
    ensures ByField(s, RegistrationRequest(r))
         == RunRegistration(Identified(s, r).(available := true), r.vectorsOk)
  {
    RunByField(Identified(s, r).(available := true), r.vectorsOk);
  }

  lemma RequestByField(s: Nc, r: Registration)
    ensures OnRegistrationRequest(s, r) == ByField(s, RegistrationRequest(r))
  {
    if !IsRead(r) {
      UnreadByField(s, r);
    } else {
      RequestIdentified(s, r);
      if RunsRegistration(s, RegistrationRequest(r)) {
        RunRequestByField(s, r);
      } else {
        ReadOnlyByField(s, r);
      }
    }
  }

  lemma IdentityByField(s: Nc, decodes: bool, vectorsOk: bool)
    ensures OnIdentityResponse(s, decodes, vectorsOk) == ByField(s, IdentityResponse(decodes, vectorsOk))
  {
  }

  lemma ResponseByField(s: Nc, ok: bool)
    ensures OnAuthenticationResponse(s, ok) == ByField(s, AuthenticationResponse(ok))
  {
  }

  lemma SynchFailureByField(s: Nc, readable: bool, again: bool)
    ensures OnAuthenticationFailure(s, readable, SynchFailure, again)
         == ByField(s, AuthenticationFailure(readable, SynchFailure, again))
  {
  }

  lemma OtherFailureByField(s: Nc, readable: bool, cause: FailureCause, again: bool)
    requires cause != SynchFailure
    ensures OnAuthenticationFailure(s, readable, cause, again)
         == ByField(s, AuthenticationFailure(readable, cause, again))
  {
    assert cause == NgksiInUse || cause == OtherCause;
  }

  lemma FailureByField(s: Nc, readable: bool, cause: FailureCause, again: bool)
    ensures OnAuthenticationFailure(s, readable, cause, again)
         == ByField(s, AuthenticationFailure(readable, cause, again))
  {
    if cause == SynchFailure {
      SynchFailureByField(s, readable, again);
    } else {
      OtherFailureByField(s, readable, cause, again);
    }
  }

  lemma EarlyCompleteByField(s: Nc, c: Complete)
    requires !EndsSecurityMode(SecurityModeComplete(c))
    ensures OnSecurityModeComplete(s, c) == s && ByField(s, SecurityModeComplete(c)) == s
  {
  }

  lemma FullCompleteByField(s: Nc, c: Complete)
    requires EndsSecurityMode(SecurityModeComplete(c))
    ensures ByField(s, SecurityModeComplete(c)) ==
            s.(guti := true, securityMode := false,
               mm := if Registers(s, SecurityModeComplete(c)) then Registered else s.mm)
  {
  }

  lemma CompleteByField(s: Nc, c: Complete)
    ensures OnSecurityModeComplete(s, c) == ByField(s, SecurityModeComplete(c))
  {
    if EndsSecurityMode(SecurityModeComplete(c)) { FullCompleteByField(s, c); } else { EarlyCompleteByField(s, c); }
  }

  lemma UplinkServiceByField(s: Nc, v: Service)
    ensures OnUplinkServiceRequest(s, v) == ByField(s, UplinkServiceRequest(v))
  {
  }

  /** What becomes of a context that a Service Request is handled with. */
  function Answered(s: Nc, v: Service): Nc {
    if IsServed(s.security, v) then s.(mm := Registered) else if v.rejectSent then s.(mm := Deregistered) else s
  }

  lemma AnsweredAdopted(s: Nc, v: Service, scType: ScType)
    requires v.ueFound && v.decodes && !s.guti
    ensures OnInitialServiceRequest(s, v, Secured(scType)) == Answered(s.(security := Some(scType)), v)
  {
  }

  lemma AnsweredHeld(s: Nc, v: Service, earlier: Earlier)
    requires !(v.ueFound && v.decodes && !s.guti && (earlier.Secured? || earlier.Unsecured?))
    ensures OnInitialServiceRequest(s, v, earlier) == Answered(s, v)
  {
  }

  /** A Service Request in an Initial UE Message that does not throw. */
  lemma ServiceAnswered(s: Nc, v: Service, earlier: Earlier)
    requires !ServiceThrows(s, v, earlier)
    ensures OnInitialServiceRequest(s, v, earlier) == Answered(s.(security := ServiceContext(s, v, earlier)), v)
  {
    if v.ueFound && v.decodes && !s.guti && earlier.Secured? {
      AnsweredAdopted(s, v, earlier.scType);
      assert earlier == Secured(earlier.scType);
    } else {
      AnsweredHeld(s, v, earlier);
      assert s.(security := s.security) == s;
    }
  }

  lemma InitialServiceByField(s: Nc, v: Service, earlier: Earlier)
    ensures OnInitialServiceRequest(s, v, earlier) == ByField(s, InitialServiceRequest(v, earlier))
  {
    OtherFieldsOfService(s, v, earlier);
    if !ServiceThrows(s, v, earlier) {
      ServiceAnswered(s, v, earlier);
    } else {
      assert MmAfter(s, InitialServiceRequest(v, earlier)) == s.mm;
    }
  }

  lemma OtherFieldsOfService(s: Nc, v: Service, earlier: Earlier)
    ensures ByField(s, InitialServiceRequest(v, earlier))
         == s.(security := ServiceContext(s, v, earlier), mm := MmAfter(s, InitialServiceRequest(v, earlier)))
  {
  }

  lemma RestoreByField(s: Nc, keysDecode: bool, freshType: ScType)
    ensures OnRestore(s, keysDecode, freshType) == ByField(s, Restore(keysDecode, freshType))
  {
  }

  /** Said handler by handler and said field by field, a step is the same. */
  lemma StepByField(s: Nc, e: Event)
    ensures Step(s, e) == ByField(s, e)
  {
    match e
    case RegistrationRequest(r) => RequestByField(s, r);
    case IdentityResponse(decodes, vectorsOk) => IdentityByField(s, decodes, vectorsOk);
    case AuthenticationResponse(ok) => ResponseByField(s, ok);
    case AuthenticationFailure(readable, cause, again) => FailureByField(s, readable, cause, again);
    case SecurityModeComplete(c) => CompleteByField(s, c);
    case SecurityModeReject =>
    case UplinkServiceRequest(v) => UplinkServiceByField(s, v);
    case InitialServiceRequest(v, earlier) => InitialServiceByField(s, v, earlier);
    case Deregistration(_) =>
    case Restore(keysDecode, freshType) => RestoreByField(s, keysDecode, freshType);
  }

  /** So a UE becomes registered by exactly the events that register, and de-registered by exactly those that
      de-register; no event is both. */
  lemma RegisteredExactlyBy(s: Nc, e: Event)
    ensures s.mm != Registered ==> (Step(s, e).mm == Registered <==> Registers(s, e))
    ensures s.mm != Deregistered ==> (Step(s, e).mm == Deregistered <==> Deregisters(s, e))
    ensures !(Registers(s, e) && Deregisters(s, e))
  {
    StepByField(s, e);
  }

  /** And the flags of the two common procedures go up by exactly these events, and down by exactly those. */
  lemma FlagsExactlyBy(s: Nc, e: Event)
    ensures Step(s, e).authentication <==> StartsAuthentication(s, e) || (s.authentication && !EndsAuthentication(e))
    ensures Step(s, e).securityMode <==> (e.AuthenticationResponse? && e.ok) || (s.securityMode && !EndsSecurityMode(e))
  {
    StepByField(s, e);
  }

  // ------------------------------------------------------- what every run keeps

  /** At most one common procedure, and a registered UE has a security context. */
  predicate Valid(s: Nc) {
    && !(s.authentication && s.securityMode)
    && (s.mm == Registered ==> s.security.Some?)
  }

  /** What a step other than a Security Mode Complete keeps. */
  predicate Follows(s: Nc, t: Nc) {
    Valid(t) && (s.security.Some? ==> t.security.Some?) && (s.securityMode ==> t.securityMode)
  }

  lemma VectorsFollow(s: Nc)
    requires Valid(s)
    ensures Follows(s, OnAuthVectors(s)) && (s.security.Some? ==> OnAuthVectors(s).security == s.security)
  {
  }

  lemma RegistrationFollows(s: Nc, vectorsOk: bool)
    requires Valid(s)
    ensures Follows(s, RunRegistration(s, vectorsOk))
    ensures s.security.Some? ==> RunRegistration(s, vectorsOk).security == s.security
  {
    VectorsFollow(s);
  }

  predicate Completes(e: Event) {
    e.SecurityModeComplete? && Clears(e.complete)
  }

  lemma FollowsInTurn(s: Nc, t: Nc, u: Nc)
    requires Follows(s, t) && Follows(t, u)
    ensures Follows(s, u)
  {
  }

  lemma IdentityFollows(s: Nc, identity: Identity)
    requires Valid(s)
    ensures Follows(s, Unavailable(OnIdentity(s, identity)))
    ensures Follows(s, Unavailable(OnIdentity(s, identity)).(available := true))
  {
  }

  lemma RegistrationRequestFollows(s: Nc, e: Registration)
    requires Valid(s)
    ensures Follows(s, OnRegistrationRequest(s, e))
  {
    IdentityFollows(s, e.identity);
    var s2 := Unavailable(OnIdentity(s, e.identity)).(available := true);
    RegistrationFollows(s2, e.vectorsOk);
    FollowsInTurn(s, s2, RunRegistration(s2, e.vectorsOk));
  }

  lemma IdentityResponseFollows(s: Nc, decodes: bool, vectorsOk: bool)
    requires Valid(s)
    ensures Follows(s, OnIdentityResponse(s, decodes, vectorsOk))
    ensures s.security.Some? ==> OnIdentityResponse(s, decodes, vectorsOk).security == s.security
  {
    RegistrationFollows(s.(available := true, imsi := true, mm := CommonProcedureInitiated), vectorsOk);
  }

  lemma FailureFollows(s: Nc, decodes: bool, cause: FailureCause, vectorsOk: bool)
    requires Valid(s)
    ensures Follows(s, OnAuthenticationFailure(s, decodes, cause, vectorsOk))
    ensures s.security.Some? ==> OnAuthenticationFailure(s, decodes, cause, vectorsOk).security == s.security
  {
    VectorsFollow(s.(authentication := false));
  }

  lemma ResponseFollows(s: Nc, ok: bool)
    requires Valid(s)
    ensures Follows(s, OnAuthenticationResponse(s, ok))
    ensures s.security == Some(FullNative) ==> OnAuthenticationResponse(s, ok).security == s.security
  {
  }

  lemma UplinkServiceFollows(s: Nc, e: Service)
    requires Valid(s)
    ensures Follows(s, OnUplinkServiceRequest(s, e)) && OnUplinkServiceRequest(s, e).security == s.security
  {
  }

  lemma InitialServiceFollows(s: Nc, e: Service, earlier: Earlier)
    requires Valid(s)
    ensures Follows(s, OnInitialServiceRequest(s, e, earlier))
    ensures !(Adopts(s, e) && earlier.Secured?) ==> OnInitialServiceRequest(s, e, earlier).security == s.security
  {
    UplinkServiceFollows(s, e);
  }

  lemma RestoreFollows(s: Nc, keysDecode: bool, freshType: ScType)
    requires Valid(s)
    ensures Follows(s, OnRestore(s, keysDecode, freshType))
  {
  }

  lemma StepFollows(s: Nc, e: Event)
    requires Valid(s) && !Completes(e)
    ensures Follows(s, Step(s, e))
  {
    match e
    case RegistrationRequest(registration) => RegistrationRequestFollows(s, registration);
    case IdentityResponse(decodes, vectorsOk) => IdentityResponseFollows(s, decodes, vectorsOk);
    case AuthenticationResponse(ok) => ResponseFollows(s, ok);
    case AuthenticationFailure(readable, cause, vectorsOk) => FailureFollows(s, readable, cause, vectorsOk);
    case UplinkServiceRequest(service) => UplinkServiceFollows(s, service);
    case InitialServiceRequest(service, earlier) => InitialServiceFollows(s, service, earlier);
    case Restore(keysDecode, freshType) => RestoreFollows(s, keysDecode, freshType);
    case _ =>
  }

  lemma StepKeepsValid(s: Nc, e: Event)
    requires Valid(s)
    ensures Valid(Step(s, e)) && (s.security.Some? ==> Step(s, e).security.Some?)
  {
    if !Completes(e) { StepFollows(s, e); }
  }

  /** Common-procedure exclusion, registered implies secured, and no handler drops a security context:
      over any run of handlers, failing ones included. */
  lemma {:induction false} RunKeepsValid(s: Nc, es: seq<Event>)
    requires Valid(s)
    ensures Valid(Run(s, es)) && (s.security.Some? ==> Run(s, es).security.Some?)
    decreases |es|
  {
    if es != [] {
      StepKeepsValid(s, es[0]);
      RunKeepsValid(Step(s, es[0]), es[1..]);
    }
  }

  /** The same from a new context. */
  lemma ReachableIsValid(es: seq<Event>)
    ensures Valid(Run(FRESH, es))
  {
    RunKeepsValid(FRESH, es);
  }

  /** One step clears the Security Mode flag exactly if it is a Security Mode Complete that gets that far;
      a Security Mode Reject does not. */
  lemma OnlyCompleteClears(s: Nc, e: Event)
    requires Valid(s) && s.securityMode
    ensures Step(s, e).securityMode <==> !Completes(e)
    ensures !Step(s, e).authentication
  {
    if !Completes(e) { StepFollows(s, e); }
  }

  /** So once the flag is up, no run without such a message starts authentication again: each
      attempt is refused, whatever its outcome would have been. */
  lemma {:induction false} BlockedUntilComplete(s: Nc, es: seq<Event>)
    requires Valid(s) && s.securityMode && forall e | e in es :: !Completes(e)
    ensures Run(s, es).securityMode && !Run(s, es).authentication
    decreases |es|
  {
    if es != [] {
      OnlyCompleteClears(s, es[0]);
      StepKeepsValid(s, es[0]);
      BlockedUntilComplete(Step(s, es[0]), es[1..]);
    }
  }

  /** What makes a security context count as new again. */
  predicate Renews(s: Nc, e: Event) {
    match e
    case RegistrationRequest(registration) => Admitted(registration)
    case InitialServiceRequest(service, earlier) => Adopts(s, service) && earlier.Secured?
    case Restore(keysDecode, _) => keysDecode
    case _ => false
  }

  predicate RenewsIn(s: Nc, es: seq<Event>)
    decreases |es|
  {
    es != [] && (Renews(s, es[0]) || RenewsIn(Step(s, es[0]), es[1..]))
  }

  lemma CompleteKeepsType(s: Nc, e: Complete)
    ensures OnSecurityModeComplete(s, e).security == s.security
  {
  }

  lemma TypeKept(s: Nc, e: Event)
    requires s.security == Some(FullNative) && !Renews(s, e) && Valid(s)
    ensures Step(s, e).security == Some(FullNative)
  {
    match e
    case IdentityResponse(decodes, vectorsOk) => IdentityResponseFollows(s, decodes, vectorsOk);
    case AuthenticationResponse(ok) => ResponseFollows(s, ok);
    case AuthenticationFailure(readable, cause, vectorsOk) => FailureFollows(s, readable, cause, vectorsOk);
    case SecurityModeComplete(complete) => CompleteKeepsType(s, complete);
    case UplinkServiceRequest(service) => UplinkServiceFollows(s, service);
    case InitialServiceRequest(service, earlier) => InitialServiceFollows(s, service, earlier);
    case _ =>
  }

  /** A Security Mode Command goes out at most once per renewal: after one, every run without a renewal
      ends where a successful authentication raises the flag but sends nothing. */
  lemma {:induction false} OneCommandPerRenewal(s: Nc, es: seq<Event>, encodes: bool)
    requires Valid(s) && s.security == Some(FullNative) && !RenewsIn(s, es)
    ensures Run(s, es).security == Some(FullNative)
    ensures !SendsCommand(Run(s, es), encodes) && StartSecurityMode(Run(s, es)).securityMode
    decreases |es|
  {
    if es != [] {
      TypeKept(s, es[0]);
      StepKeepsValid(s, es[0]);
      OneCommandPerRenewal(Step(s, es[0]), es[1..], encodes);
    }
  }

  // ------------------------------------------------------- what runs achieve

  const GOOD_SUCI := Suci(true, true, true)

  /** What follows once authentication vectors are there. */
  lemma AuthenticatedAndCompleted(s: Nc)
    requires Valid(s) && s.authentication && s.security == Some(NotAvailable)
    ensures var t := OnAuthenticationResponse(s, true);
            var r := OnSecurityModeComplete(t, Complete(true, false, false, true, true, true, false, false));
            && SendsCommand(s.(authentication := false), true) && t.securityMode && !t.authentication
            && r.mm == Registered && r.security == Some(FullNative) && !Ongoing(r) && r.guti
  {
  }

  lemma VectorsStart(s: Nc)
    requires !Ongoing(s) && s.available && s.imsi && (s.security.None? || s.security == Some(NotAvailable))
    ensures RunRegistration(s, true) == s.(vectors := true, authentication := true, security := Some(NotAvailable))
  {
  }

  const INITIAL_BY_SUCI := Registration(true, true, true, GOOD_SUCI, true, true, Initial, true)

  lemma RegistrationStarts(s: Nc)
    requires Valid(s) && !Ongoing(s)
    ensures var s1 := OnRegistrationRequest(s, INITIAL_BY_SUCI);
            && s1.authentication && !s1.securityMode && s1.security == Some(NotAvailable)
            && s1.mm == CommonProcedureInitiated && s1.vectors
  {
    var s0 := Unavailable(OnIdentity(s, GOOD_SUCI)).(available := true);
    VectorsStart(s0);
    assert OnRegistrationRequest(s, INITIAL_BY_SUCI) == RunRegistration(s0, true);
  }

  /** Registration goes through from every state with no procedure running: Registration Request with a SUCI,
      Authentication Response and Security Mode Complete leave the UE registered, with a full security context and no
      procedure running; the Security Mode Command goes out on the way. */
  lemma RegistrationCompletes(s: Nc)
    requires Valid(s) && !Ongoing(s)
    ensures var s1 := OnRegistrationRequest(s, INITIAL_BY_SUCI);
            var s2 := OnAuthenticationResponse(s1, true);
            var r := OnSecurityModeComplete(s2, Complete(true, false, false, true, true, true, false, false));
            && s1.authentication && s1.mm == CommonProcedureInitiated
            && SendsCommand(s1.(authentication := false), true)
            && r.mm == Registered && r.security == Some(FullNative) && !Ongoing(r) && r.guti
  {
    RegistrationStarts(s);
    AuthenticatedAndCompleted(OnRegistrationRequest(s, INITIAL_BY_SUCI));
  }

  /** With a GUTI that names no known SUPI, the identity is asked for first, and the Identity Response starts
      authentication. */
  lemma GutiAsksForIdentity(s: Nc)
    requires Valid(s) && !Ongoing(s) && !s.imsi
    ensures var s1 := OnRegistrationRequest(s, Registration(true, true, true, Guti, true, true, Initial, true));
            var s2 := OnIdentityResponse(s1, true, true);
            && !s1.authentication && !s1.vectors && s1.bySuci
            && s2.authentication && s2.mm == CommonProcedureInitiated && s2.security == Some(NotAvailable)
  {
  }

  // ------------------------------------------------------- the handlers on a context in memory

  class NasContext {
    var authentication: bool
    var securityMode: bool
    var security: Option<ScType>
    var mm: MmState
    var available: bool
    var imsi: bool
    var vectors: bool
    var gutiIdentity: bool
    var bySuci: bool
    var guti: bool

    function View(): Nc
      reads this
    {
      Nc(authentication, securityMode, security, mm, available, imsi, vectors, gutiIdentity, bySuci, guti)
    }

    constructor ()
      ensures View() == FRESH
    {
      authentication, securityMode, security, mm := false, false, None, Deregistered;
      available, imsi, vectors, gutiIdentity, bySuci, guti := false, false, false, false, false, false;
    }

    method StartAuthenticationProcedure(encodes: bool) returns (ok: bool)
      modifies this
      ensures View() == StartAuthentication(old(View()))
      ensures ok == (!Ongoing(old(View())) && encodes)
    {
      if authentication || securityMode {
        return false;
      }
      authentication := true;
      ok := encodes;
    }

    method HandleAuthVectors(encodes: bool)
      modifies this
      ensures View() == OnAuthVectors(old(View()))
    {
      vectors := true;
      if security.None? {
        security := Some(NotAvailable);
      }
      var _ := StartAuthenticationProcedure(encodes);
    }

    method RunRegistrationProcedure(vectorsOk: bool, encodes: bool) returns (ok: bool)
      modifies this
      ensures View() == RunRegistration(old(View()), vectorsOk)
      ensures ok <==> old(available) && if old(imsi) then old(vectors) || vectorsOk else old(gutiIdentity) ==> encodes
    {
      if !available {
        return false;
      }
      if imsi {
        if !vectors && !vectorsOk {
          return false;
        }
        HandleAuthVectors(encodes);
      } else if gutiIdentity {
        vectors := false;
        return encodes;
      }
      ok := true;
    }

    method StartSecurityModeControl(encodes: bool) returns (sent: bool)
      modifies this
      ensures View() == StartSecurityMode(old(View()))
      ensures sent == SendsCommand(old(View()), encodes)
    {
      securityMode := true;
      var isNew := false;
      if security.None? {
        return false;
      }
      if security == Some(NotAvailable) && securityMode {
        security := Some(FullNative);
        isNew := true;
      }
      sent := encodes && isNew;
    }

    /** The part of it that looks at the 5GS mobile identity. */
    method TakeIdentity(identity: Identity) returns (ok: bool)
      modifies this
      ensures ok == !IdentityRefused(identity) && View() == OnIdentity(old(View()), identity)
    {
      match identity {
        case Suci(hasImsi, gnbKnown, plmnMatches) =>
          if hasImsi {
            if !gnbKnown || !plmnMatches {
              return false;
            }
            imsi := true;
            mm := CommonProcedureInitiated;
          }
        case Guti =>
          gutiIdentity := true;
          bySuci := true;
        case OtherIdentity =>
      }
      ok := true;
    }

    method RegistrationRequestHandle(e: Registration, encodes: bool) returns (ok: bool)
      modifies this
      ensures View() == OnRegistrationRequest(old(View()), e)
      ensures ok ==> IsRead(e) && e.hasType && e.hasKsi
      ensures RunsRegistration(old(View()), RegistrationRequest(e)) ==>
                (ok <==> if imsi then old(vectors) || e.vectorsOk else gutiIdentity ==> encodes)
    {
      if !e.decodes || !e.ueFound || !e.ngapFound {
        return false;
      }
      ok := TakeIdentity(e.identity);
      if !ok {
        return;
      }
      if security.Some? {
        security := Some(NotAvailable);
      }
      assert View() == Unavailable(OnIdentity(old(View()), e.identity));
      if !e.hasType || !e.hasKsi {
        return false;
      }
      available := true;
      ok := !e.regType.UnknownType? && !e.regType.Emergency?;
      if e.regType.Initial? || (e.regType.Mobility? && security.None?) {
        ok := RunRegistrationProcedure(e.vectorsOk, encodes);
      }
    }

    method IdentityResponseHandle(decodes: bool, vectorsOk: bool, encodes: bool)
      modifies this
      ensures View() == OnIdentityResponse(old(View()), decodes, vectorsOk)
    {
      if !decodes {
        return;
      }
      available := true;
      imsi := true;
      if bySuci {
        mm := CommonProcedureInitiated;
        var _ := RunRegistrationProcedure(vectorsOk, encodes);
      }
    }

    /** Reports whether a Security Mode Command went out. */
    method AuthenticationResponseHandle(isAuthOk: bool, encodes: bool) returns (sent: bool)
      modifies this
      ensures View() == OnAuthenticationResponse(old(View()), isAuthOk)
      ensures sent == (isAuthOk && SendsCommand(old(View()), encodes))
    {
      authentication := false;
      sent := false;
      if isAuthOk {
        sent := StartSecurityModeControl(encodes);
      }
    }

    method AuthenticationFailureHandle(decodes: bool, cause: FailureCause, vectorsOk: bool, encodes: bool)
      modifies this
      ensures View() == OnAuthenticationFailure(old(View()), decodes, cause, vectorsOk)
    {
      authentication := false;
      if !decodes {
        return;
      }
      match cause
      case SynchFailure =>
        if vectorsOk {
          HandleAuthVectors(encodes);
        }
      case NgksiInUse =>
        if security.None? {
          return;
        }
        var _ := StartAuthenticationProcedure(encodes);
      case OtherCause =>
    }

    method SecurityModeCompleteHandle(e: Complete)
      modifies this
      ensures View() == OnSecurityModeComplete(old(View()), e)
    {
      if !e.ueFound || e.isPlain || e.rerouted || !e.rerouteOk || !e.gutiOk {
        return;
      }
      guti := true;
      securityMode := false;
      if security.None? || !e.encodes {
        return;
      }
      if e.contextRequested && !e.kamfFound {
        return;
      }
      mm := Registered;
    }

    method UplinkServiceRequestHandle(e: Service) returns (ok: bool)
      modifies this`mm
      ensures View() == OnUplinkServiceRequest(old(View()), e) && ok == IsServed(old(View()).security, e)
    {
      ok := e.ueFound && security.Some? && e.decodes && e.restOk;
      if !ok && e.rejectSent {
        mm := Deregistered;
      }
    }

    method InitialServiceRequestHandle(e: Service, earlier: Earlier) returns (ok: bool)
      modifies this`security, this`mm
      ensures View() == OnInitialServiceRequest(old(View()), e, earlier)
      ensures ok <==> Registers(old(View()), InitialServiceRequest(e, earlier))
    {
      if e.ueFound && e.decodes && !guti {
        match earlier {
          case NoContext =>
          case Unsecured => return false;
          case Secured(scType) => security := Some(scType);
        }
      }
      ok := e.ueFound && security.Some? && e.decodes && e.restOk;
      if ok {
        mm := Registered;
      } else if e.rejectSent {
        mm := Deregistered;
      }
    }

    method RestoreFromSnapshot(keysDecode: bool, freshType: ScType) returns (ok: bool)
      modifies this
      ensures View() == OnRestore(old(View()), keysDecode, freshType) && ok == keysDecode
    {
      if !keysDecode {
        return false;
      }
      security := Some(freshType);
      vectors := true;
      mm := Registered;
      ok := true;
    }
  }
}
