/** The client-side routes the dashboard and the registration form navigate to. */
module Routes {
  const LoginPath := "/login"
}
