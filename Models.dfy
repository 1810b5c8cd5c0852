/** The plain data types the network example passes around. */
module Models {
  import opened Wrappers

  /** The playground's own error enum; its localised descriptions are not modelled. */
  datatype CustomError = HoustonWeHaveAProblem | MathImpossibility | ParsingWentWrong

  /** A post as decoded from the placeholder API; every field may be missing. */
  datatype ExamplePost = ExamplePost(
    id: Option<int>,
    userId: Option<int>,
    title: Option<string>,
    body: Option<string>)

  /** A user as decoded from the placeholder API; every field may be missing. */
  datatype ExampleUser = ExampleUser(
    id: Option<int>,
    email: Option<string>,
    name: Option<string>,
    username: Option<string>,
    posts: Option<seq<ExamplePost>>)
}
