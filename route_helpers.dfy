/** The route a user lands on after signing in (`route-helpers`). */
module RouteHelpers {
  import opened Wrappers
  import opened Users
  import opened Text

  const Lessons := "/lessons"
  const Dashboard := "/dashboard"

  /** `user.role?.toLowerCase() === 'student'` */
  predicate IsStudentRole(role: Option<string>) {
    role.Some? && ToLower(role.value) == "student"
  }

  /** `getDefaultRoute()`, with the stored user as a parameter. */
  function DefaultRoute(user: Option<User>): (r: string)
    ensures r == Lessons || r == Dashboard
    ensures r == Lessons <==> user.Some? && IsStudentRole(user.value.role)
  {
    match user
    case None => Dashboard
    case Some(u) => if IsStudentRole(u.role) then Lessons else Dashboard
  }
}
