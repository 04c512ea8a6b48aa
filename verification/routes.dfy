/** The pages the sign-in flow sends a user to. */
module Routes {
  datatype Route = ToLogin | ToAdminClub | ToJugadorHome | ToEntrenadorHome | ToRoot
}
