/** Which step of the guided experience is on screen: a pure dispatch on
    the optional session's trip status with a fail-safe fallback. */
module Views {
  import opened Wrappers

  /** The trip status a session carries: the three known values, and
      `Unrecognized` for every other value the session provider may hand
      over at run time, which the switch sends to its default case. */
  datatype TripStatus = Upcoming | DuringStay | Completed | Unrecognized

  /** The booking a session carries. The shell itself reads only the
      background image, for rendering, which is not part of this model. */
  datatype Booking = Booking(backgroundImage: string)

  /** A signed-in session: its trip status and its booking. */
  datatype Session = Session(status: TripStatus, booking: Booking)

  datatype View = LoginView | DashboardView | SouvenirView

  /** `renderStep`: no session or an unrecognised status shows the login
      step, an upcoming or current stay the dashboard, a completed stay
      the souvenir step. Each direction of each case is stated. */
  function ResolveView(session: Option<Session>): (v: View)
    ensures v == LoginView <==> session.None? || session.value.status.Unrecognized?
    ensures v == DashboardView <==> session.Some? && (session.value.status == Upcoming || session.value.status == DuringStay)
    ensures v == SouvenirView <==> session.Some? && session.value.status == Completed
  {
    match session
    case None => LoginView
    case Some(s) =>
      match s.status
      case Upcoming => DashboardView
      case DuringStay => DashboardView
      case Completed => SouvenirView
      case Unrecognized => LoginView
  }

  /** The view depends on nothing but the status: sessions that differ
      only in their booking show the same step. */
  lemma ViewDependsOnStatusOnly(a: Session, b: Session)
    requires a.status == b.status
    ensures ResolveView(Some(a)) == ResolveView(Some(b))
  {
  }

  /** The four worked cases of the resolver. */
  lemma ResolveViewExamples()
    ensures ResolveView(None) == LoginView
    ensures ResolveView(Some(Session(DuringStay, Booking("")))) == DashboardView
    ensures ResolveView(Some(Session(Completed, Booking("")))) == SouvenirView
    ensures ResolveView(Some(Session(Unrecognized, Booking("")))) == LoginView
  {
  }
}
