/** The fixed subject catalogue, reduced to name and colour class. */
module Constants {

  import opened Types

  const Subjects: seq<Subject> := [
    Subject("Mathematics", "bg-blue-500"),
    Subject("Science", "bg-green-500"),
    Subject("History", "bg-amber-500"),
    Subject("Language Arts", "bg-red-500")
  ]
}
