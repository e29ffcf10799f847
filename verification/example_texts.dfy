/** The literal texts of the test cases in helpers/sql.test.js, assembled
    from the fragments the builders concatenate. */
module ExampleTexts {

  lemma NameAssignment()
    ensures "\"" + "name" + "\"=" + "$1" == "\"name\"=$1"
  {
  }

  lemma DescriptionAssignment()
    ensures "\"" + "company_description" + "\"=" + "$2" == "\"company_description\"=$2"
  {
  }

  lemma UpdateSetCols()
    ensures "\"name\"=$1" + ", " + "\"company_description\"=$2" == "\"name\"=$1, \"company_description\"=$2"
  {
  }

  lemma NameLikeFirst()
    ensures "LOWER(name) LIKE '%'||" + "$1" + "||'%'" == "LOWER(name) LIKE '%'||$1||'%'"
  {
  }

  lemma EmployeesAtLeastSecond()
    ensures "num_employees >=" + "$2" == "num_employees >=$2"
  {
  }

  lemma WhereThenNameLike()
    ensures "WHERE " + "LOWER(name) LIKE '%'||$1||'%'" == "WHERE LOWER(name) LIKE '%'||$1||'%'"
  {
  }

  lemma WhereThenNameLikeAnd()
    ensures "WHERE LOWER(name) LIKE '%'||$1||'%'" + " AND " == "WHERE LOWER(name) LIKE '%'||$1||'%' AND "
  {
  }

  lemma CompanyWhereLast()
    ensures "WHERE LOWER(name) LIKE '%'||$1||'%' AND " + "num_employees >=$2"
         == "WHERE LOWER(name) LIKE '%'||$1||'%' AND num_employees >=$2"
  {
  }

  lemma CompanyWhere()
    ensures "WHERE " + "LOWER(name) LIKE '%'||$1||'%'" + " AND " + "num_employees >=$2"
         == "WHERE LOWER(name) LIKE '%'||$1||'%' AND num_employees >=$2"
  {
    WhereThenNameLike();
    WhereThenNameLikeAnd();
    CompanyWhereLast();
  }

  lemma TitleLikeFirst()
    ensures "LOWER(title) LIKE '%'||" + "$1" + "||'%'" == "LOWER(title) LIKE '%'||$1||'%'"
  {
  }

  lemma SalaryAtLeastSecond()
    ensures "salary >=" + "$2" == "salary >=$2"
  {
  }

  lemma WhereThenTitleLike()
    ensures "WHERE " + "LOWER(title) LIKE '%'||$1||'%'" == "WHERE LOWER(title) LIKE '%'||$1||'%'"
  {
  }

  lemma WhereThenTitleLikeAnd()
    ensures "WHERE LOWER(title) LIKE '%'||$1||'%'" + " AND " == "WHERE LOWER(title) LIKE '%'||$1||'%' AND "
  {
  }

  lemma TitleEquityWhereLast()
    ensures "WHERE LOWER(title) LIKE '%'||$1||'%' AND " + "equity > 0"
         == "WHERE LOWER(title) LIKE '%'||$1||'%' AND equity > 0"
  {
  }

  lemma TitleEquityWhere()
    ensures "WHERE " + "LOWER(title) LIKE '%'||$1||'%'" + " AND " + "equity > 0"
         == "WHERE LOWER(title) LIKE '%'||$1||'%' AND equity > 0"
  {
    WhereThenTitleLike();
    WhereThenTitleLikeAnd();
    TitleEquityWhereLast();
  }

  lemma TitleSalaryWhereLast()
    ensures "WHERE LOWER(title) LIKE '%'||$1||'%' AND " + "salary >=$2"
         == "WHERE LOWER(title) LIKE '%'||$1||'%' AND salary >=$2"
  {
  }

  lemma TitleSalaryWhere()
    ensures "WHERE " + "LOWER(title) LIKE '%'||$1||'%'" + " AND " + "salary >=$2"
         == "WHERE LOWER(title) LIKE '%'||$1||'%' AND salary >=$2"
  {
    WhereThenTitleLike();
    WhereThenTitleLikeAnd();
    TitleSalaryWhereLast();
  }
}
