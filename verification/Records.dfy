/** Entities shared by several components: the signed-in user's children. */
module Records {

  type UserId = string
  type ChildId = string

  /** A row of the `children` table. `createdAt` is the insertion instant in milliseconds. */
  datatype Child = Child(
    id: ChildId,
    userId: UserId,
    name: string,
    dateOfBirth: string,
    gender: string,
    createdAt: int)
}
