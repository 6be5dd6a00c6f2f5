/** design-patterns/person_builder.py: a builder holding one person object
    that its fluent setters change in place and that `build` hands out. */
module PersonBuilder {

  /** The person the builder holds. Its class is not part of this model: it
      is taken to be an object with a name and an age whose initial values
      are unknown. */
  class Person {
    var name: string
    var age: int

    constructor()
    {
    }
  }

  class PersonBuilder {
    const person: Person

    /** `PersonBuilder()`: a new person of its own. */
    constructor()
      ensures fresh(person)
    {
      person := new Person();
    }

    /** `named(name)`: sets only the name and returns the builder itself. */
    method Named(name: string) returns (b: PersonBuilder)
      modifies person
      ensures b == this
      ensures person.name == name && person.age == old(person.age)
    {
      person.name := name;
      b := this;
    }

    /** `aged(age)`: sets only the age and returns the builder itself. */
    method Aged(age: int) returns (b: PersonBuilder)
      modifies person
      ensures b == this
      ensures person.age == age && person.name == old(person.name)
    {
      person.age := age;
      b := this;
    }

    /** `build()`: the held person itself, not a copy. */
    method Build() returns (p: Person)
      ensures p == person
    {
      p := person;
    }
  }

  /** A chained build, then a setter call after `build`: both builds return
      the same object, and the late setter changes the person already
      returned. */
  method BuildThenRename() returns (p: Person, q: Person)
    ensures p == q
    ensures p.name == "Bob" && p.age == 30
  {
    var builder := new PersonBuilder();
    var b := builder.Named("Alice");
    b := b.Aged(30);
    p := b.Build();
    b := builder.Named("Bob");
    q := builder.Build();
  }
}
